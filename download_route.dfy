/** `/api/apk/download`: GET streams a collector's or a build's APK file with
    download headers; POST describes the latest completed build. The disk is
    a map from absolute path to file size; the stream itself is not
    modelled. */
module DownloadRoute {
  import opened Common
  import opened Tables
  import Builder
  import GitHubActions
  import GenerateRoute

  const IdRequiredMessage := "cobradorId o buildId es requerido"
  const CobradorNotFoundMessage := "Cobrador no encontrado"
  const BuildNotFoundMessage := "Build no encontrado"
  const ApkUnavailableMessage := "APK no disponible"
  const FileMissingMessage := "Archivo APK no encontrado en el servidor"
  const InfoNotFoundMessage := "APK no encontrada"
  const ApkContentType := "application/vnd.android.package-archive"
  const DefaultFileName := "app.apk"

  /** `APK_<name without whitespace>_<version or v1>.apk`. Unlike the
      builder, only whitespace is removed. */
  function DownloadName(nombre: string, version: Option<string>): (r: string)
    ensures |r| >= 9 && r[..4] == "APK_" && r[|r| - 4..] == ".apk"
    ensures 4 + |Builder.StripWhitespace(nombre)| <= |r|
            && r[4..4 + |Builder.StripWhitespace(nombre)|] == Builder.StripWhitespace(nombre)
    ensures forall i :: 4 <= i < 4 + |Builder.StripWhitespace(nombre)| ==> !IsWhitespace(r[i])
    ensures r[4 + |Builder.StripWhitespace(nombre)|..] == "_" + OrElse(version, "v1") + ".apk"
  {
    "APK_" + Builder.StripWhitespace(nombre) + "_" + OrElse(version, "v1") + ".apk"
  }

  /** `path.isAbsolute(p) ? p : path.join(cwd, p)` for a non-empty `p`. */
  function ResolvePath(cwd: string, p: string): (r: string)
    requires p != []
    ensures p[0] == '/' ==> r == p
    ensures p[0] != '/' ==> r == cwd + "/" + p
  {
    if p[0] == '/' then p else cwd + "/" + p
  }

  /** The path `buildAPK` returns resolves to the file it wrote. */
  lemma ResolveArtifactPath(cwd: Builder.Path, req: Builder.BuildRequest)
    requires cwd != []
    ensures ResolvePath("/" + Builder.Render(cwd), Builder.ArtifactRelPath(req))
            == "/" + Builder.Render(cwd + Builder.OutputRel + [req.cobradorId, Builder.ArtifactName(req.nombre)])
  {
    Builder.RenderArtifactPath(req);
    var rel := Builder.OutputRel + [req.cobradorId, Builder.ArtifactName(req.nombre)];
    assert Builder.ArtifactRelPath(req)[0] == 's';
    Builder.RenderConcat(cwd, rel);
    assert cwd + rel == cwd + Builder.OutputRel + [req.cobradorId, Builder.ArtifactName(req.nombre)];
  }

  /** When the name has only letters, digits and whitespace, the download
      name of a version-less collector is the builder's artifact name. */
  lemma {:induction false} StripIsSanitizeOnPlainNames(s: string)
    requires forall i :: 0 <= i < |s| ==> IsAsciiAlnum(s[i]) || IsWhitespace(s[i])
    ensures Builder.StripWhitespace(s) == Builder.Sanitize(s)
  {
    if s != [] {
      StripIsSanitizeOnPlainNames(s[1..]);
      Builder.SanitizeIsKeepAlnum(s);
      Builder.SanitizeIsKeepAlnum(s[1..]);
    }
  }

  lemma DownloadNameMatchesArtifact(nombre: string)
    requires forall i :: 0 <= i < |nombre| ==> IsAsciiAlnum(nombre[i]) || IsWhitespace(nombre[i])
    ensures DownloadName(nombre, None) == Builder.ArtifactName(nombre)
  {
    StripIsSanitizeOnPlainNames(nombre);
  }

  /** A character the builder drops but the download route keeps. */
  predicate IsPunctuation(c: char) { !IsAsciiAlnum(c) && !IsWhitespace(c) }

  lemma {:induction false} KeepAlnumShorterThanStrip(s: string)
    ensures |Builder.KeepAlnum(s)| <= |Builder.StripWhitespace(s)|
    ensures (exists i :: 0 <= i < |s| && IsPunctuation(s[i])) ==>
              |Builder.KeepAlnum(s)| < |Builder.StripWhitespace(s)|
  {
    if s != [] {
      KeepAlnumShorterThanStrip(s[1..]);
      if exists i :: 0 <= i < |s| && IsPunctuation(s[i]) {
        var i :| 0 <= i < |s| && IsPunctuation(s[i]);
        if i > 0 {
          assert s[1..][i - 1] == s[i];
        }
      }
    }
  }

  /** A name with punctuation (a hyphen, an accented letter) gets a longer
      download name than the file the builder wrote. */
  lemma DownloadNameDiffersOnPunctuation(nombre: string)
    requires exists i :: 0 <= i < |nombre| && IsPunctuation(nombre[i])
    ensures DownloadName(nombre, None) != Builder.ArtifactName(nombre)
  {
    KeepAlnumShorterThanStrip(nombre);
    Builder.SanitizeIsKeepAlnum(nombre);
    assert |DownloadName(nombre, None)| > |Builder.ArtifactName(nombre)|;
  }

  datatype DownloadResponse =
    | Failure(status: nat, error: string)
    | Stream(fullPath: string, headers: seq<(string, string)>)

  /** The download headers; each name appears once, and the length header
      reads back as the file size. */
  function Headers(fileName: string, fileSize: nat): (r: seq<(string, string)>)
    ensures |r| == 6 && r[1] == ("Content-Disposition", "attachment; filename=\"" + fileName + "\"")
    ensures r[2].0 == "Content-Length" && ParseInt(r[2].1) == Some(fileSize)
    ensures forall i, j :: 0 <= i < j < |r| ==> r[i].0 != r[j].0
  {
    ParseIntOfNatToString(fileSize);
    [("Content-Type", ApkContentType),
     ("Content-Disposition", "attachment; filename=\"" + fileName + "\""),
     ("Content-Length", NatToString(fileSize)),
     ("Cache-Control", "no-cache, no-store, must-revalidate"),
     ("Pragma", "no-cache"),
     ("Expires", "0")]
  }

  /** Where the APK is and how to name it, or the 404 message. */
  datatype Located = Located(apkPath: Option<string>, fileName: string)

  /** The lookup: the collector when its id is given, the build otherwise;
      a build without a linked collector keeps the default name. */
  function Locate(cs: map<string, Cobrador>, bs: map<string, StoredBuild>, cobradorId: Option<string>,
                  buildId: Option<string>): (r: Result<Located>)
    requires Truthy(cobradorId) || Truthy(buildId)
    ensures Truthy(cobradorId) ==> (r.Err? <==> cobradorId.value !in cs)
    ensures !Truthy(cobradorId) ==> (r.Err? <==> buildId.value !in bs)
    ensures r.Ok? && Truthy(cobradorId) ==>
              r.value == Located(cs[cobradorId.value].apkUrl,
                                 DownloadName(cs[cobradorId.value].nombre, cs[cobradorId.value].apkVersion))
    ensures r.Ok? && !Truthy(cobradorId) && bs[buildId.value].cobradorId !in cs ==>
              r.value.fileName == DefaultFileName
    ensures r.Ok? && !Truthy(cobradorId) ==> r.value.apkPath == bs[buildId.value].row.apkUrl
    ensures r.Ok? && !Truthy(cobradorId) && bs[buildId.value].cobradorId in cs ==>
              var c := cs[bs[buildId.value].cobradorId];
              r.value.fileName == DownloadName(c.nombre, c.apkVersion)
  {
    if Truthy(cobradorId) then
      if cobradorId.value !in cs then Err(CobradorNotFoundMessage)
      else
        var c := cs[cobradorId.value];
        Ok(Located(c.apkUrl, DownloadName(c.nombre, c.apkVersion)))
    else if buildId.value !in bs then Err(BuildNotFoundMessage)
    else
      var b := bs[buildId.value];
      Ok(Located(b.row.apkUrl,
                 if b.cobradorId in cs then DownloadName(cs[b.cobradorId].nombre, cs[b.cobradorId].apkVersion)
                 else DefaultFileName))
  }

  /** The GET answer. */
  function Download(cs: map<string, Cobrador>, bs: map<string, StoredBuild>, files: map<string, nat>,
                    cwd: string, cobradorId: Option<string>, buildId: Option<string>): (r: DownloadResponse)
    ensures !Truthy(cobradorId) && !Truthy(buildId) ==> r == Failure(400, IdRequiredMessage)
    ensures r.Failure? ==> r.status == 400 || r.status == 404
    ensures r.Stream? ==> r.fullPath in files && |r.headers| == 6
                          && r.headers[0] == ("Content-Type", ApkContentType)
                          && r.headers[2] == ("Content-Length", NatToString(files[r.fullPath]))
    ensures r.Stream? ==> var loc := Locate(cs, bs, cobradorId, buildId);
                          loc.Ok? && Truthy(loc.value.apkPath)
                          && r.fullPath == ResolvePath(cwd, loc.value.apkPath.value)
    ensures (Truthy(cobradorId) || Truthy(buildId)) && Locate(cs, bs, cobradorId, buildId).Ok?
            && !Truthy(Locate(cs, bs, cobradorId, buildId).value.apkPath)
            ==> r == Failure(404, ApkUnavailableMessage)
    ensures (Truthy(cobradorId) || Truthy(buildId)) && Locate(cs, bs, cobradorId, buildId).Err?
            ==> r == Failure(404, Locate(cs, bs, cobradorId, buildId).message)
    ensures (Truthy(cobradorId) || Truthy(buildId)) && Locate(cs, bs, cobradorId, buildId).Ok?
            && Truthy(Locate(cs, bs, cobradorId, buildId).value.apkPath)
            ==> var loc := Locate(cs, bs, cobradorId, buildId).value;
                (r.Stream? <==> ResolvePath(cwd, loc.apkPath.value) in files)
                && (r.Failure? ==> r == Failure(404, FileMissingMessage))
    ensures r.Stream? ==> r.headers[1] == ("Content-Disposition", "attachment; filename=\""
                                             + Locate(cs, bs, cobradorId, buildId).value.fileName + "\"")
  {
    if !Truthy(cobradorId) && !Truthy(buildId) then Failure(400, IdRequiredMessage)
    else match Locate(cs, bs, cobradorId, buildId)
      case Err(m) => Failure(404, m)
      case Ok(loc) =>
        if !Truthy(loc.apkPath) then Failure(404, ApkUnavailableMessage)
        else
          var fullPath := ResolvePath(cwd, loc.apkPath.value);
          if fullPath !in files then Failure(404, FileMissingMessage)
          else Stream(fullPath, Headers(loc.fileName, files[fullPath]))
  }

  /** When both ids are given, the build id plays no part. */
  lemma CollectorIdTakesPrecedence(cs: map<string, Cobrador>, bs: map<string, StoredBuild>,
                                   files: map<string, nat>, cwd: string, cobradorId: string, buildId: Option<string>)
    requires cobradorId != ""
    ensures Download(cs, bs, files, cwd, Some(cobradorId), buildId) == Download(cs, bs, files, cwd, Some(cobradorId), None)
  {
  }

  /** A build the local builder completed has no `apk_url` (the generate
      route writes none), so downloading it by build id answers 404. */
  lemma LocallyBuiltRecordIsUnavailable(cs: map<string, Cobrador>, bs: map<string, StoredBuild>,
                                        files: map<string, nat>, cwd: string, buildId: string,
                                        path: string, buildTime: int, endTime: int, remote: GitHubActions.Outcome<GitHubActions.Run>)
    requires buildId != "" && buildId in bs
    requires bs[buildId].row == GenerateRoute.FinalRow(Ok(path), remote, buildTime, endTime)
    ensures Download(cs, bs, files, cwd, None, Some(buildId)) == Failure(404, ApkUnavailableMessage)
  {
  }

  /** The GET route, with the reassigned `apkPath` and `fileName`. */
  method Get(db: Db, files: map<string, nat>, cwd: string, cobradorId: Option<string>, buildId: Option<string>)
    returns (resp: DownloadResponse)
    ensures resp == Download(db.cobradores, Snapshot(db.builds), files, cwd, cobradorId, buildId)
  {
    if !Truthy(cobradorId) && !Truthy(buildId) {
      return Failure(400, IdRequiredMessage);
    }
    var apkPath: Option<string> := None;
    var fileName := DefaultFileName;
    if Truthy(cobradorId) {
      if cobradorId.value !in db.cobradores {
        return Failure(404, CobradorNotFoundMessage);
      }
      var cobrador := db.cobradores[cobradorId.value];
      apkPath := cobrador.apkUrl;
      fileName := DownloadName(cobrador.nombre, cobrador.apkVersion);
    } else {
      if buildId.value !in db.builds {
        return Failure(404, BuildNotFoundMessage);
      }
      var build := db.builds[buildId.value];
      apkPath := build.apkUrl;
      if build.cobradorId in db.cobradores {
        var cobrador := db.cobradores[build.cobradorId];
        fileName := DownloadName(cobrador.nombre, cobrador.apkVersion);
      }
    }
    if !Truthy(apkPath) {
      return Failure(404, ApkUnavailableMessage);
    }
    var fullPath := ResolvePath(cwd, apkPath.value);
    if fullPath !in files {
      return Failure(404, FileMissingMessage);
    }
    var fileSize := files[fullPath];
    resp := Stream(fullPath, Headers(fileName, fileSize));
  }

  // ---------------------------------------------------------------------
  // POST: information about the latest completed build

  /** The filter of the query: completed builds of the collector, or the
      build with the given id. */
  function Candidates(bs: map<string, StoredBuild>, cobradorId: Option<string>, buildId: Option<string>): (r: set<string>)
    ensures r <= bs.Keys
    ensures forall id :: id in r ==> bs[id].row.estado == "completed"
    ensures forall id :: id in r <==> id in bs && bs[id].row.estado == "completed"
                                      && (if Truthy(cobradorId) then bs[id].cobradorId == cobradorId.value
                                          else buildId == Some(id))
  {
    set id | id in bs && bs[id].row.estado == "completed"
                      && (if Truthy(cobradorId) then bs[id].cobradorId == cobradorId.value else Some(id) == buildId)
  }

  /** `order('fecha_fin', { ascending: false })`: the newest first, and a
      missing end time (NULL) before every other, as PostgreSQL sorts
      descending. */
  predicate RanksFirst(a: Option<int>, b: Option<int>) {
    a.None? || (b.Some? && a.value >= b.value)
  }

  /** `id` is a row `limit(1)` may return. */
  predicate IsLatest(bs: map<string, StoredBuild>, cobradorId: Option<string>, buildId: Option<string>, id: string) {
    id in Candidates(bs, cobradorId, buildId)
    && forall o :: o in Candidates(bs, cobradorId, buildId) ==> RanksFirst(bs[id].row.fechaFin, bs[o].row.fechaFin)
  }

  lemma {:induction false} LatestExists(bs: map<string, StoredBuild>, s: set<string>)
    requires s != {} && s <= bs.Keys
    ensures exists id :: id in s && forall o :: o in s ==> RanksFirst(bs[id].row.fechaFin, bs[o].row.fechaFin)
  {
    var x :| x in s;
    if s != {x} {
      LatestExists(bs, s - {x});
      var y :| y in s - {x} && forall o :: o in s - {x} ==> RanksFirst(bs[y].row.fechaFin, bs[o].row.fechaFin);
      if RanksFirst(bs[x].row.fechaFin, bs[y].row.fechaFin) {
        assert forall o :: o in s ==> RanksFirst(bs[x].row.fechaFin, bs[o].row.fechaFin);
      } else {
        assert forall o :: o in s ==> RanksFirst(bs[y].row.fechaFin, bs[o].row.fechaFin);
      }
    }
  }

  datatype CollectorSummary = CollectorSummary(nombre: string, dni: string, version: Option<string>)

  datatype InfoResponse =
    | InfoFailure(status: nat, error: string)
    | Info(buildId: string, cobradorId: string, fileName: string, fileSize: nat, fileExists: bool,
           apkUrl: Option<string>, fechaCreacion: Option<int>, metodo: string, tiempoBuild: Option<int>,
           cobrador: Option<CollectorSummary>)

  /** The template literal prints `undefined` for a build without a linked
      collector. */
  function InfoName(cs: map<string, Cobrador>, cobradorId: string): (r: string)
    ensures cobradorId !in cs ==> r == "APK_undefined_v1.apk"
    ensures cobradorId in cs ==> r == DownloadName(cs[cobradorId].nombre, cs[cobradorId].apkVersion)
  {
    if cobradorId in cs then DownloadName(cs[cobradorId].nombre, cs[cobradorId].apkVersion)
    else "APK_undefined_v1.apk"
  }

  /** The answer for the selected row; the file is looked up only when the
      row has an `apk_url`. */
  function InfoOf(cs: map<string, Cobrador>, files: map<string, nat>, cwd: string, id: string, b: StoredBuild): (r: InfoResponse)
    ensures r.Info? && r.buildId == id && r.cobradorId == b.cobradorId && r.apkUrl == b.row.apkUrl
    ensures r.fileExists <==> Truthy(b.row.apkUrl) && ResolvePath(cwd, b.row.apkUrl.value) in files
    ensures r.fileSize == if r.fileExists then files[ResolvePath(cwd, b.row.apkUrl.value)] else 0
    ensures r.fileName == InfoName(cs, b.cobradorId)
    ensures r.cobrador.Some? <==> b.cobradorId in cs
    ensures b.cobradorId in cs ==>
              r.cobrador == Some(CollectorSummary(cs[b.cobradorId].nombre, cs[b.cobradorId].dni,
                                                  cs[b.cobradorId].apkVersion))
    ensures r.fechaCreacion == b.row.fechaFin && r.metodo == b.row.metodo && r.tiempoBuild == b.row.tiempoBuild
  {
    var fullPath := if Truthy(b.row.apkUrl) then Some(ResolvePath(cwd, b.row.apkUrl.value)) else None;
    var present := fullPath.Some? && fullPath.value in files;
    Info(id, b.cobradorId, InfoName(cs, b.cobradorId), if present then files[fullPath.value] else 0, present,
         b.row.apkUrl, b.row.fechaFin, b.row.metodo, b.row.tiempoBuild,
         if b.cobradorId in cs
         then Some(CollectorSummary(cs[b.cobradorId].nombre, cs[b.cobradorId].dni, cs[b.cobradorId].apkVersion))
         else None)
  }

  /** The POST route. Which of several equally ranked rows the database
      returns is not fixed, so any of them is allowed. */
  method Post(db: Db, files: map<string, nat>, cwd: string, cobradorId: Option<string>, buildId: Option<string>)
    returns (resp: InfoResponse)
    ensures !Truthy(cobradorId) && !Truthy(buildId) ==> resp == InfoFailure(400, IdRequiredMessage)
    ensures Truthy(cobradorId) || Truthy(buildId) ==>
              (resp.InfoFailure? <==> Candidates(Snapshot(db.builds), cobradorId, buildId) == {})
    ensures resp.InfoFailure? ==> resp.status == 400 || resp == InfoFailure(404, InfoNotFoundMessage)
    ensures resp.Info? ==> IsLatest(Snapshot(db.builds), cobradorId, buildId, resp.buildId)
                           && resp == InfoOf(db.cobradores, files, cwd, resp.buildId, Snapshot(db.builds)[resp.buildId])
  {
    if !Truthy(cobradorId) && !Truthy(buildId) {
      return InfoFailure(400, IdRequiredMessage);
    }
    var bs := Snapshot(db.builds);
    var found := Candidates(bs, cobradorId, buildId);
    if found == {} {
      return InfoFailure(404, InfoNotFoundMessage);
    }
    LatestExists(bs, found);
    var id :| id in found && forall o :: o in found ==> RanksFirst(bs[id].row.fechaFin, bs[o].row.fechaFin);
    resp := InfoOf(db.cobradores, files, cwd, id, bs[id]);
  }

  /** A completed build whose end time is missing is chosen before any
      other. */
  lemma UnfinishedEndTimeRanksFirst(bs: map<string, StoredBuild>, cobradorId: Option<string>, buildId: Option<string>,
                                    id: string, o: string)
    requires IsLatest(bs, cobradorId, buildId, id)
    requires o in Candidates(bs, cobradorId, buildId) && bs[o].row.fechaFin.None?
    ensures bs[id].row.fechaFin.None?
  {
  }
}
