/** The signing variant of the builder (`APKBuilderFull`): it unpacks the
    base APK into a temporary folder, writes a smaller configuration
    document at a different entry, repacks, signs and cleans up. Only where
    it puts things and what the document holds are modelled. */
module BuilderFull {
  import opened Common
  import Builder
  import ConfigModifier

  /** The entry this variant writes, relative to the unpacked folder. */
  const FullConfigEntry := "assets/config/app_config.json"
  const TempDirName := "temp"
  const UnsignedName := "unsigned.apk"

  /** The `config` argument; the `credenciales` fields may be missing. */
  datatype FullRequest = FullRequest(
    cobradorId: string,
    nombre: string,
    token: string,
    dni: Option<string>,
    supabaseUrl: Option<string>,
    supabaseKey: Option<string>)

  /** The document written; a missing credential field is left out of the
      JSON text, which `None` stands for. */
  datatype FullConfig = FullConfig(
    cobradorToken: string,
    cobradorNombre: string,
    cobradorDni: Option<string>,
    supabaseUrl: Option<string>,
    supabaseKey: Option<string>,
    autoLogin: bool,
    version: string)

  function FullConfigOf(req: FullRequest): FullConfig {
    FullConfig(req.token, req.nombre, req.dni, req.supabaseUrl, req.supabaseKey, true, ConfigModifier.ConfigVersion)
  }

  /** The request the plain builder gets, seen by this variant. */
  function AsFullRequest(req: Builder.BuildRequest): FullRequest {
    FullRequest(req.cobradorId, req.nombre, req.token, req.dni, Some(req.supabaseUrl), Some(req.supabaseKey))
  }

  /** For the same request both builders embed the same token, name, keys,
      auto-login and version; they differ on the identity number, which only
      the plain builder defaults to `N/A`. */
  lemma FullConfigAgreesWithEmbedded(req: Builder.BuildRequest, nextAuthUrl: Option<string>, generatedAt: string)
    ensures var full := FullConfigOf(AsFullRequest(req));
            var local := ConfigModifier.NewConfig(Builder.EmbeddedCredentials(req), nextAuthUrl, generatedAt);
            full.cobradorToken == local.cobradorToken && full.cobradorNombre == local.cobradorNombre
            && full.supabaseUrl == Some(local.supabaseUrl) && full.supabaseKey == Some(local.supabaseKey)
            && full.autoLogin == local.autoLogin && full.version == local.version
            && (Truthy(req.dni) ==> full.cobradorDni == Some(local.cobradorDni))
            && (req.dni.None? ==> full.cobradorDni.None? && local.cobradorDni == "N/A")
  {
  }

  /** The document lands at another entry than the one the app and
      `extractConfig` read. */
  lemma FullConfigEntryIsElsewhere()
    ensures FullConfigEntry != ConfigModifier.ConfigPath
    ensures |FullConfigEntry| < |ConfigModifier.ConfigPath|
  {
  }

  /** The locations of one build under `outputDir`. */
  datatype FullPaths = FullPaths(tempDir: Builder.Path, configFile: Builder.Path, unsigned: Builder.Path,
                                 signed: Builder.Path)

  function FullPathsOf(outputDir: Builder.Path, req: FullRequest): (r: FullPaths)
    ensures |r.signed| == |r.unsigned| == |r.tempDir| == |outputDir| + 2
    ensures r.signed[..|outputDir| + 1] == r.unsigned[..|outputDir| + 1] == r.tempDir[..|outputDir| + 1]
            == outputDir + [req.cobradorId]
    ensures r.signed[|r.signed| - 1] == Builder.ArtifactName(req.nombre)
  {
    var dir := outputDir + [req.cobradorId];
    FullPaths(dir + [TempDirName], dir + [TempDirName, "assets", "config", "app_config.json"],
              dir + [UnsignedName], dir + [Builder.ArtifactName(req.nombre)])
  }

  /** Removing the temporary folder and the unsigned file leaves the signed
      APK, which has the plain builder's artifact name. */
  lemma CleanupSparesSigned(outputDir: Builder.Path, req: FullRequest)
    ensures var p := FullPathsOf(outputDir, req);
            p.signed != p.unsigned && p.signed != p.tempDir
            && !(|p.tempDir| <= |p.signed| && p.signed[..|p.tempDir|] == p.tempDir)
  {
    var p := FullPathsOf(outputDir, req);
    var last := |outputDir| + 1;
    assert p.signed[last] == Builder.ArtifactName(req.nombre);
    assert Builder.ArtifactName(req.nombre)[0] == 'A';
    assert p.tempDir[last] == TempDirName && TempDirName[0] == 't';
    assert p.unsigned[last] == UnsignedName && UnsignedName[0] == 'u';
    assert p.signed[..|p.tempDir|] == p.signed;
  }

  /** The returned path, relative to the working directory, is the one the
      plain builder returns. */
  lemma ReturnedPathMatchesPlainBuilder(cwd: Builder.Path, req: Builder.BuildRequest)
    ensures var signed := FullPathsOf(cwd + Builder.OutputRel, AsFullRequest(req)).signed;
            signed[|cwd|..] == Builder.OutputRel + [req.cobradorId, Builder.ArtifactName(req.nombre)]
            && Builder.Render(signed[|cwd|..]) == Builder.ArtifactRelPath(req)
  {
  }
}
