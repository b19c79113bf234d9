/** The integrity check run against a base or generated APK: the file must
    exist and open as an archive, the three entries every APK carries are
    looked for, and the embedded configuration's token is reported. What
    the script prints is modelled as a report value. */
module ApkIntegrity {
  import opened Common
  import opened Archive
  import opened AppConfigCodec
  import opened ConfigModifier

  const CriticalFiles: seq<string> := ["AndroidManifest.xml", "classes.dex", "META-INF/MANIFEST.MF"]

  datatype TokenReport = Presente | Placeholder

  datatype ConfigReport = NoConfig | ConfigFound(token: TokenReport)

  datatype IntegrityReport =
    | FileNotFound(path: string)
    /** Reading failed: the file is no archive, or the configuration is not
        a JSON document (the thrown message is not modelled). */
    | ReadError
    | Inspected(entryCount: nat, missing: seq<string>, valid: bool, config: ConfigReport)

  /** The names of `wanted` that are not among `names`, in the order of
      `wanted`. */
  function Missing(wanted: seq<string>, names: seq<string>): (r: seq<string>)
    ensures |r| <= |wanted|
  {
    if wanted == [] then []
    else (if wanted[0] in names then [] else [wanted[0]]) + Missing(wanted[1..], names)
  }

  /** `Missing` is an in-order filter: it works piece by piece, and a
      single name is kept exactly when it is absent. */
  lemma {:induction false} MissingAppend(front: seq<string>, back: seq<string>, names: seq<string>)
    ensures Missing(front + back, names) == Missing(front, names) + Missing(back, names)
  {
    if front != [] {
      MissingAppend(front[1..], back, names);
      assert (front + back)[1..] == front[1..] + back;
    } else {
      assert front + back == back;
    }
  }

  lemma MissingSingle(x: string, names: seq<string>)
    ensures Missing([x], names) == if x in names then [] else [x]
  {
    assert [x][1..] == [];
  }

  lemma {:induction false} MissingIff(wanted: seq<string>, names: seq<string>, x: string)
    ensures x in Missing(wanted, names) <==> x in wanted && x !in names
  {
    if wanted != [] {
      MissingIff(wanted[1..], names, x);
      assert wanted == [wanted[0]] + wanted[1..];
    }
  }

  /** Nothing is missing exactly when every wanted name is present. */
  lemma NoneMissingIffAllPresent(wanted: seq<string>, names: seq<string>)
    ensures Missing(wanted, names) == [] <==> forall i :: 0 <= i < |wanted| ==> wanted[i] in names
  {
    if Missing(wanted, names) != [] {
      var x := Missing(wanted, names)[0];
      MissingIff(wanted, names, x);
    } else {
      forall i | 0 <= i < |wanted|
        ensures wanted[i] in names
      {
        MissingIff(wanted, names, wanted[i]);
      }
    }
  }

  /** The loop that pushes each critical name no entry carries. */
  method MissingFiles(entries: seq<Entry>) returns (missing: seq<string>)
    ensures missing == Missing(CriticalFiles, Names(entries))
    ensures forall x :: x in missing <==> x in CriticalFiles && x !in Names(entries)
  {
    var wanted, names := CriticalFiles, Names(entries);
    missing := [];
    var i := 0;
    while i < |wanted|
      invariant 0 <= i <= |wanted|
      invariant missing == Missing(wanted[..i], names)
    {
      MissingAppend(wanted[..i], [wanted[i]], names);
      MissingSingle(wanted[i], names);
      assert wanted[..i + 1] == wanted[..i] + [wanted[i]];
      var found := wanted[i] in names;
      if !found {
        missing := missing + [wanted[i]];
      }
      i := i + 1;
    }
    assert wanted[..i] == wanted;
    forall x
      ensures x in missing <==> x in CriticalFiles && x !in Names(entries)
    {
      MissingIff(CriticalFiles, Names(entries), x);
    }
  }

  /** `config.cobrador_token ? 'Presente' : 'PLACEHOLDER'`. */
  function TokenOf(c: AppConfig): (r: TokenReport)
    ensures r == Presente <==> c.cobradorToken != ""
  {
    if c.cobradorToken != "" then Presente else Placeholder
  }

  /** `testSingleAPK` on the file `disk` holds at `path`. A missing file
      returns before anything is opened. */
  method TestSingleAPK(disk: map<string, FileData>, path: string) returns (report: IntegrityReport)
    ensures path !in disk <==> report == FileNotFound(path)
    ensures path in disk && disk[path].Unreadable? ==> report == ReadError
    ensures report.Inspected? ==>
              path in disk && disk[path].Zip?
              && report.entryCount == |disk[path].entries|
              && report.missing == Missing(CriticalFiles, Names(disk[path].entries))
              && (report.valid <==> forall i :: 0 <= i < |CriticalFiles| ==> CriticalFiles[i] in Names(disk[path].entries))
              && (report.config == NoConfig <==> !VerifyAPKStructure(Some(disk[path])))
              && (report.config.ConfigFound? ==> ExtractConfig(Some(disk[path])).Some? && report.config.token == TokenOf(ExtractConfig(Some(disk[path])).value))
    ensures path in disk && disk[path].Zip? && (VerifyAPKStructure(Some(disk[path])) ==> ExtractConfig(Some(disk[path])).Some?)
            ==> report.Inspected?
  {
    if path !in disk {
      return FileNotFound(path);
    }
    var file := disk[path];
    if file.Unreadable? {
      return ReadError;
    }
    var entries := file.entries;
    var missing := MissingFiles(entries);
    NoneMissingIffAllPresent(CriticalFiles, Names(entries));
    var valid := |missing| == 0;
    var config := NoConfig;
    match Lookup(entries, ConfigPath) {
      case None =>
      case Some(data) =>
        match Decode(data) {
          case None =>
            return ReadError;
          case Some(c) =>
            config := ConfigFound(TokenOf(c));
        }
    }
    report := Inspected(|entries|, missing, valid, config);
  }

  /** No critical file is the configuration entry: every one is shorter. */
  lemma CriticalFilesAreNotConfig(x: string)
    requires x in CriticalFiles
    ensures x != ConfigPath
  {
    assert |x| < |ConfigPath|;
  }

  /** Writing the configuration entry changes which critical files are
      missing in no way. */
  lemma CriticalNamesKept(es: Entries, data: Bytes)
    ensures Missing(CriticalFiles, Names(Put(es, ConfigPath, data))) == Missing(CriticalFiles, Names(es))
  {
    var after := Put(es, ConfigPath, data);
    forall x | x in CriticalFiles
      ensures x in Names(after) <==> x in Names(es)
    {
      CriticalFilesAreNotConfig(x);
      LookupPutOther(es, ConfigPath, data, x);
    }
    MissingOnSameNames(CriticalFiles, Names(after), Names(es));
  }

  /** A generated APK keeps the base's critical entries and reports the
      token it was built with. */
  lemma GeneratedApkReport(es: Entries, cred: Credentials, nextAuthUrl: Option<string>, generatedAt: string)
    ensures var f := Modified(Zip(es), cred, nextAuthUrl, generatedAt).value;
            f.Zip?
            && Missing(CriticalFiles, Names(f.entries)) == Missing(CriticalFiles, Names(es))
            && VerifyAPKStructure(Some(f))
            && ExtractConfig(Some(f)).Some?
            && TokenOf(ExtractConfig(Some(f)).value) == if cred.cobradorToken != "" then Presente else Placeholder
  {
    var c := NewConfig(cred, nextAuthUrl, generatedAt);
    var f := Modified(Zip(es), cred, nextAuthUrl, generatedAt).value;
    assert f == Zip(Put(es, ConfigPath, Encode(c)));
    CriticalNamesKept(es, Encode(c));
    ExtractAfterModify(es, cred, nextAuthUrl, generatedAt);
    assert ExtractConfig(Some(f)) == Some(c);
  }

  lemma {:induction false} MissingOnSameNames(wanted: seq<string>, a: seq<string>, b: seq<string>)
    requires forall x :: x in wanted ==> (x in a <==> x in b)
    ensures Missing(wanted, a) == Missing(wanted, b)
  {
    if wanted != [] {
      assert wanted[0] in wanted;
      assert forall x :: x in wanted[1..] ==> x in wanted;
      MissingOnSameNames(wanted[1..], a, b);
    }
  }
}
