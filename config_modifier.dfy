/** The credential embedder: writes a collector's configuration document into
    the fixed entry of an APK, checks that the entry is there, and reads it
    back. An APK file is given by what its path holds (`FileData`). */
module ConfigModifier {
  import opened Common
  import opened Archive
  import opened AppConfigCodec

  /** The entry the mobile app reads its configuration from. */
  const ConfigPath := "assets/flutter_assets/assets/config/app_config.json"
  const DefaultAdminUrl := "http://localhost:3000"
  const ConfigVersion := "1.0.0"
  const ModifyErrorPrefix := "Error modificando APK: "

  /** The `config` argument of `modifyAPK`. */
  datatype Credentials = Credentials(
    cobradorToken: string,
    cobradorNombre: string,
    cobradorDni: string,
    supabaseUrl: string,
    supabaseKey: string)

  /** The document `modifyAPK` builds: the five credentials, the admin URL
      (`NEXTAUTH_URL` or the local default), auto-login on, version 1.0.0 and
      the generation time. */
  function NewConfig(cred: Credentials, nextAuthUrl: Option<string>, generatedAt: string): AppConfig {
    AppConfig(cred.cobradorToken, cred.cobradorNombre, cred.cobradorDni,
              cred.supabaseUrl, cred.supabaseKey, OrElse(nextAuthUrl, DefaultAdminUrl),
              true, ConfigVersion, generatedAt)
  }

  /** `verifyAPKStructure`: `file` is what the path holds (`None`: nothing).
      Never fails: a missing or unreadable file answers false. */
  function VerifyAPKStructure(file: Option<FileData>): (r: bool)
    ensures r <==> file.Some? && file.value.Zip?
                   && exists i :: 0 <= i < |file.value.entries| && file.value.entries[i].name == ConfigPath
  {
    file.Some? && file.value.Zip? && ConfigPath in Names(file.value.entries)
  }

  /** `extractConfig`: the parsed document, or `None` (null) when there is no
      file, the file is no archive, the entry is absent or does not parse. */
  function ExtractConfig(file: Option<FileData>): (r: Option<AppConfig>)
    ensures r.Some? ==> VerifyAPKStructure(file)
    ensures r.Some? ==> Serialize(r.value) == FromBytes(Lookup(file.value.entries, ConfigPath).value)
    ensures file.Some? && file.value.Zip? && Lookup(file.value.entries, ConfigPath).Some?
            && Decode(Lookup(file.value.entries, ConfigPath).value).Some?
            ==> r == Decode(Lookup(file.value.entries, ConfigPath).value)
  {
    if file.None? || file.value.Unreadable? then None
    else match Lookup(file.value.entries, ConfigPath)
      case None => None
      case Some(data) =>
        match Decode(data)
        case None => None
        case Some(c) => SerializeParse(FromBytes(data)); Some(c)
  }

  /** What `modifyAPK` leaves at the path, or the error it throws. */
  function Modified(file: FileData, cred: Credentials, nextAuthUrl: Option<string>,
                    generatedAt: string): Result<FileData>
  {
    match file
    case Unreadable(reason) => Err(ModifyErrorPrefix + reason)
    case Zip(es) => Ok(Zip(Put(es, ConfigPath, Encode(NewConfig(cred, nextAuthUrl, generatedAt)))))
  }

  /** `modifyAPK`: writes the new document into the opened archive (adding
      the entry when it is missing, updating it otherwise), then copies every
      entry into a fresh archive, and adds the entry once more when it was
      missing. */
  method ModifyAPK(file: FileData, cred: Credentials, nextAuthUrl: Option<string>,
                   generatedAt: string) returns (r: Result<FileData>)
    ensures r == Modified(file, cred, nextAuthUrl, generatedAt)
    ensures r.Ok? <==> file.Zip?
    ensures file.Unreadable? ==> r.message == ModifyErrorPrefix + file.reason
  {
    if file.Unreadable? {
      return Err(ModifyErrorPrefix + file.reason);
    }
    var zip := new ZipArchive.Open(file.entries);
    var data := Encode(NewConfig(cred, nextAuthUrl, generatedAt));
    var hadConfig := ConfigPath in Names(zip.entries);
    if !hadConfig {
      zip.AddFile(ConfigPath, data);
    } else {
      zip.UpdateFile(ConfigPath, data);
    }
    LookupPut(file.entries, ConfigPath, data);
    var newZip := CopyEntries(zip, ConfigPath, data);
    if !hadConfig {
      PutSame(newZip.entries, ConfigPath, data);
      newZip.AddFile(ConfigPath, data);
    }
    r := Ok(Zip(newZip.entries));
  }

  /** In an archive no entry's name occurs among the entries before it. */
  lemma NameNotEarlier(es: Entries, i: nat)
    requires i < |es|
    ensures es[i].name !in Names(es[..i])
  {
    var ns := Names(es[..i]);
    forall k | 0 <= k < i ensures ns[k] != es[i].name {
      assert es[..i][k] == es[k];
    }
  }

  /** Adding entry `i` of an archive to a copy of the entries before it
      appends it. */
  lemma PutNext(es: Entries, i: nat)
    requires i < |es|
    ensures Put(es[..i], es[i].name, es[i].data) == es[..i + 1]
  {
    NameNotEarlier(es, i);
    PutFresh(es[..i], es[i].name, es[i].data);
    assert es[..i + 1] == es[..i] + [es[i]];
  }

  /** An entry of an archive whose name `Lookup` finds with `data` holds
      `data`. */
  lemma DataAt(es: Entries, i: nat, name: string, data: Bytes)
    requires Lookup(es, name) == Some(data) && i < |es| && es[i].name == name
    ensures es[i].data == data
  {
    LookupAt(es, i);
  }

  /** One iteration of the copy loop of `modifyAPK`: entry `i` is added to
      the copy, with the new document `data` when it is the entry `path`,
      which already holds it. */
  method CopyEntry(newZip: ZipArchive, es: Entries, i: nat, path: string, data: Bytes)
    requires i < |es| && Lookup(es, path) == Some(data) && newZip.entries == es[..i]
    modifies newZip
    ensures newZip.entries == es[..i + 1]
  {
    var entry := es[i];
    PutNext(es, i);
    if entry.name == path {
      DataAt(es, i, path, data);
      newZip.AddFile(entry.name, data);
    } else {
      newZip.AddFile(entry.name, entry.data);
    }
  }

  /** The copy loop of `modifyAPK`: every entry of `zip` is added to a fresh
      archive in order, the entry `path` with the new document `data`, which
      `zip` already holds. */
  method CopyEntries(zip: ZipArchive, path: string, data: Bytes) returns (newZip: ZipArchive)
    requires Lookup(zip.entries, path) == Some(data)
    ensures fresh(newZip) && newZip.entries == zip.entries
  {
    var es := zip.entries;
    newZip := new ZipArchive.Empty();
    var i := 0;
    while i < |es|
      invariant 0 <= i <= |es|
      invariant newZip.entries == es[..i]
    {
      CopyEntry(newZip, es, i, path, data);
      i := i + 1;
    }
    assert es[..i] == es;
  }

  /** Create-or-replace: after `modifyAPK` the structure check passes, the
      entry names are the old ones (plus the configuration entry, at the end,
      when it was missing), and every other entry keeps its name, data and
      relative order. */
  lemma ModifyCreatesOrReplaces(es: Entries, cred: Credentials, nextAuthUrl: Option<string>,
                                generatedAt: string, other: string)
    requires other != ConfigPath
    ensures var r := Modified(Zip(es), cred, nextAuthUrl, generatedAt);
            r.Ok? && VerifyAPKStructure(Some(r.value))
            && Names(r.value.entries) == (if ConfigPath in Names(es) then Names(es) else Names(es) + [ConfigPath])
            && Others(r.value.entries, ConfigPath) == Others(es, ConfigPath)
            && Lookup(r.value.entries, other) == Lookup(es, other)
  {
    var data := Encode(NewConfig(cred, nextAuthUrl, generatedAt));
    var after := Put(es, ConfigPath, data);
    assert ConfigPath in Names(after);
    var k :| 0 <= k < |Names(after)| && Names(after)[k] == ConfigPath;
    assert after[k].name == ConfigPath;
    OthersPut(es, ConfigPath, data);
    LookupPutOther(es, ConfigPath, data, other);
  }

  /** Round trip: what `extractConfig` reads from a modified APK is the
      document just embedded, carrying the collector's credentials,
      auto-login and version 1.0.0. */
  lemma ExtractAfterModify(es: Entries, cred: Credentials, nextAuthUrl: Option<string>,
                           generatedAt: string)
    ensures var r := Modified(Zip(es), cred, nextAuthUrl, generatedAt);
            r.Ok? && ExtractConfig(Some(r.value)) == Some(NewConfig(cred, nextAuthUrl, generatedAt))
    ensures var c := NewConfig(cred, nextAuthUrl, generatedAt);
            c.cobradorToken == cred.cobradorToken && c.cobradorNombre == cred.cobradorNombre
            && c.cobradorDni == cred.cobradorDni && c.supabaseUrl == cred.supabaseUrl
            && c.supabaseKey == cred.supabaseKey && c.autoLogin && c.version == "1.0.0"
  {
    var c := NewConfig(cred, nextAuthUrl, generatedAt);
    LookupPut(es, ConfigPath, Encode(c));
    DecodeEncode(c);
  }

  /** Without the entry there is nothing to read back. */
  lemma ExtractWithoutEntry(file: Option<FileData>)
    requires !VerifyAPKStructure(file)
    ensures ExtractConfig(file).None?
  {
  }
}
