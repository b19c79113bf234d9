/** The local builder: copies the base APK into a collector's output
    directory, embeds the credentials when the APK has the configuration
    entry, and renames the copy to its final artifact name; plus the
    retention sweep over old artifacts. The file system is a map from paths
    (sequences of segments) to nodes; the clock is a parameter. */
module Builder {
  import opened Common
  import opened Archive
  import opened ConfigModifier

  type Path = seq<string>

  /** A directory or a file, with its modification time in milliseconds. */
  datatype Node = Dir(mtime: int) | File(mtime: int, content: FileData)

  const MsPerDay := 24 * 60 * 60 * 1000
  const BaseMissingMessage := "APK base no encontrada. Debes copiar app-release.apk a storage/base-apk/"
  const TempName := "temp.apk"

  // Locations relative to the working directory.
  const BaseApkRel: Path := ["storage", "base-apk", "app-release.apk"]
  const OutputRel: Path := ["storage", "generated"]
  const KeystoreRel: Path := ["storage", "keystore", "release.keystore"]

  /** A path written with `/` between its segments. */
  function Render(p: Path): string {
    if p == [] then "" else if |p| == 1 then p[0] else p[0] + "/" + Render(p[1..])
  }

  /** Joining two non-empty paths puts one `/` between them. */
  lemma {:induction false} RenderConcat(a: Path, b: Path)
    requires a != [] && b != []
    ensures Render(a + b) == Render(a) + "/" + Render(b)
  {
    if |a| == 1 {
      assert (a + b)[1..] == b;
    } else {
      assert (a + b)[1..] == a[1..] + b;
      RenderConcat(a[1..], b);
    }
  }

  /** Writing a path twice leaves the second write. */
  lemma UpdateTwice(nodes: map<Path, Node>, p: Path, first: Node, second: Node)
    ensures nodes[p := first][p := second] == nodes[p := second]
  {
  }

  /** The message of a failed file-system call: error code, call, path. */
  function IoMessage(code: string, syscall: string, p: Path): string {
    code + ": " + syscall + " '/" + Render(p) + "'"
  }

  predicate IsDir(nodes: map<Path, Node>, p: Path) { p in nodes && nodes[p].Dir? }
  predicate IsFile(nodes: map<Path, Node>, p: Path) { p in nodes && nodes[p].File? }

  // ---------------------------------------------------------------------
  // Name sanitisation and artifact naming

  /** `name.replace(/\s+/g, '')` */
  function StripWhitespace(s: string): (r: string)
    ensures forall i :: 0 <= i < |r| ==> !IsWhitespace(r[i])
  {
    if s == [] then []
    else (if IsWhitespace(s[0]) then [] else [s[0]]) + StripWhitespace(s[1..])
  }

  /** `name.replace(/[^a-zA-Z0-9]/g, '')` */
  function KeepAlnum(s: string): (r: string)
    ensures forall i :: 0 <= i < |r| ==> IsAsciiAlnum(r[i])
  {
    if s == [] then []
    else (if IsAsciiAlnum(s[0]) then [s[0]] else []) + KeepAlnum(s[1..])
  }

  /** The file-system-safe form of a collector's name (both passes). */
  function Sanitize(nombre: string): string {
    KeepAlnum(StripWhitespace(nombre))
  }

  /** The second pass alone gives the same name: whitespace is never
      alphanumeric. */
  lemma {:induction false} SanitizeIsKeepAlnum(s: string)
    ensures Sanitize(s) == KeepAlnum(s)
  {
    if s != [] {
      SanitizeIsKeepAlnum(s[1..]);
      var head := if IsWhitespace(s[0]) then [] else [s[0]];
      assert StripWhitespace(s) == head + StripWhitespace(s[1..]);
      KeepAlnumConcat(head, StripWhitespace(s[1..]));
    }
  }

  lemma {:induction false} KeepAlnumConcat(a: string, b: string)
    ensures KeepAlnum(a + b) == KeepAlnum(a) + KeepAlnum(b)
  {
    if a == [] {
      assert a + b == b;
    } else {
      assert (a + b)[0] == a[0];
      assert (a + b)[1..] == a[1..] + b;
      KeepAlnumConcat(a[1..], b);
    }
  }

  lemma {:induction false} KeepAlnumOfAlnum(s: string)
    requires forall i :: 0 <= i < |s| ==> IsAsciiAlnum(s[i])
    ensures KeepAlnum(s) == s
  {
    if s != [] {
      KeepAlnumOfAlnum(s[1..]);
    }
  }

  /** The sanitised name is the input's ASCII letters and digits, in order;
      sanitising twice changes nothing more; a name that is already plain
      letters and digits is kept as it is. */
  lemma SanitizeProperties(s: string)
    ensures forall i :: 0 <= i < |Sanitize(s)| ==> IsAsciiAlnum(Sanitize(s)[i])
    ensures Sanitize(s) == KeepAlnum(s)
    ensures Sanitize(Sanitize(s)) == Sanitize(s)
    ensures (forall i :: 0 <= i < |s| ==> IsAsciiAlnum(s[i])) ==> Sanitize(s) == s
  {
    SanitizeIsKeepAlnum(s);
    SanitizeIsKeepAlnum(Sanitize(s));
    KeepAlnumOfAlnum(Sanitize(s));
    if forall i :: 0 <= i < |s| ==> IsAsciiAlnum(s[i]) {
      KeepAlnumOfAlnum(s);
    }
  }

  /** `APK_<sanitised name>_v1.apk` */
  function ArtifactName(nombre: string): string {
    "APK_" + Sanitize(nombre) + "_v1.apk"
  }

  lemma ArtifactNameIsNotTemp(nombre: string)
    ensures ArtifactName(nombre) != TempName
  {
    assert ArtifactName(nombre)[0] == 'A';
  }

  // ---------------------------------------------------------------------
  // The file-system calls the builder makes

  /** The shortest ancestor-or-self of `p`, from length `k` on, that is a
      file. */
  function FirstFilePrefix(nodes: map<Path, Node>, p: Path, k: nat): (r: Option<nat>)
    requires 1 <= k
    ensures r.Some? ==> k <= r.value <= |p| && IsFile(nodes, p[..r.value])
    ensures r.None? ==> forall j :: k <= j <= |p| ==> !IsFile(nodes, p[..j])
    decreases |p| + 1 - k
  {
    if k > |p| then None
    else if IsFile(nodes, p[..k]) then Some(k)
    else FirstFilePrefix(nodes, p, k + 1)
  }

  /** `mkdir(p, {recursive: true})` fails when an ancestor-or-self is a file. */
  function MkdirError(nodes: map<Path, Node>, p: Path): Option<string> {
    match FirstFilePrefix(nodes, p, 1)
    case Some(k) => Some(IoMessage(if k == |p| then "EEXIST" else "ENOTDIR", "mkdir", p))
    case None => None
  }

  function Prefixes(p: Path): set<Path> {
    set k | 1 <= k <= |p| :: p[..k]
  }

  /** The directories `mkdir -p` creates: every missing ancestor-or-self. */
  function MkdirAll(nodes: map<Path, Node>, p: Path, now: int): map<Path, Node> {
    map q | q in nodes.Keys + Prefixes(p) :: if q in nodes then nodes[q] else Dir(now)
  }

  function Parent(p: Path): Path requires p != [] { p[..|p| - 1] }

  /** `copyFile(src, dst)` fails when the source is no file, the target is a
      directory, or the target's directory does not exist. */
  function CopyError(nodes: map<Path, Node>, src: Path, dst: Path): Option<string> {
    if src !in nodes then Some(IoMessage("ENOENT", "copyfile", src))
    else if nodes[src].Dir? || IsDir(nodes, dst) then Some(IoMessage("EISDIR", "copyfile", dst))
    else if dst == [] || !IsDir(nodes, Parent(dst)) then Some(IoMessage("ENOENT", "copyfile", dst))
    else None
  }

  /** `rename(src, dst)` fails when the source is missing or the target is a
      directory. */
  function RenameError(nodes: map<Path, Node>, src: Path, dst: Path): Option<string> {
    if src !in nodes then Some(IoMessage("ENOENT", "rename", src))
    else if IsDir(nodes, dst) then Some(IoMessage("EISDIR", "rename", dst))
    else None
  }

  /** The names in directory `d`. */
  function Children(nodes: map<Path, Node>, d: Path): set<string> {
    set p | p in nodes && |p| == |d| + 1 && p[..|d|] == d :: p[|d|]
  }

  predicate NoDuplicates(s: seq<string>) {
    forall i, j :: 0 <= i < j < |s| ==> s[i] != s[j]
  }

  /** The disk, updated in place by the calls of Node's `fs` module. */
  class FileSystem {
    var nodes: map<Path, Node>

    constructor (init: map<Path, Node>)
      ensures nodes == init
    {
      nodes := init;
    }

    method Mkdirp(p: Path, now: int) returns (err: Option<string>)
      modifies this
      ensures err == MkdirError(old(nodes), p)
      ensures nodes == if err.None? then MkdirAll(old(nodes), p, now) else old(nodes)
    {
      err := MkdirError(nodes, p);
      if err.None? {
        nodes := MkdirAll(nodes, p, now);
      }
    }

    method CopyFile(src: Path, dst: Path, now: int) returns (err: Option<string>)
      modifies this
      ensures err == CopyError(old(nodes), src, dst)
      ensures nodes == if err.None? then old(nodes)[dst := File(now, old(nodes)[src].content)] else old(nodes)
    {
      err := CopyError(nodes, src, dst);
      if err.None? {
        nodes := nodes[dst := File(now, nodes[src].content)];
      }
    }

    /** `writeZip(p)`: the file now holds the archive. */
    method WriteFile(p: Path, content: FileData, now: int)
      modifies this
      ensures nodes == old(nodes)[p := File(now, content)]
    {
      nodes := nodes[p := File(now, content)];
    }

    method Rename(src: Path, dst: Path) returns (err: Option<string>)
      modifies this
      ensures err == RenameError(old(nodes), src, dst)
      ensures nodes == if err.None? then (old(nodes) - {src})[dst := old(nodes)[src]] else old(nodes)
    {
      err := RenameError(nodes, src, dst);
      if err.None? {
        nodes := (nodes - {src})[dst := nodes[src]];
      }
    }

    /** `unlink(p)` removes a file; on a directory it fails. */
    method Unlink(p: Path) returns (err: Option<string>)
      requires p in nodes
      modifies this
      ensures err.Some? <==> old(nodes)[p].Dir?
      ensures nodes == if err.None? then old(nodes) - {p} else old(nodes)
    {
      if nodes[p].Dir? {
        err := Some(IoMessage("EISDIR", "unlink", p));
      } else {
        err := None;
        nodes := nodes - {p};
      }
    }

    /** `readdir(d)`: the names in a directory, each once, in some order. */
    method Readdir(d: Path) returns (r: Result<seq<string>>)
      ensures r.Ok? <==> IsDir(nodes, d)
      ensures r.Ok? ==> NoDuplicates(r.value)
                        && forall n :: n in r.value <==> n in Children(nodes, d)
    {
      if d !in nodes {
        return Err(IoMessage("ENOENT", "scandir", d));
      } else if nodes[d].File? {
        return Err(IoMessage("ENOTDIR", "scandir", d));
      }
      var left := Children(nodes, d);
      var names: seq<string> := [];
      while left != {}
        invariant NoDuplicates(names)
        invariant forall n :: n in names ==> n !in left
        invariant forall n :: n in Children(nodes, d) <==> n in names || n in left
        decreases |left|
      {
        var n :| n in left;
        names := names + [n];
        left := left - {n};
      }
      r := Ok(names);
    }
  }

  // ---------------------------------------------------------------------
  // buildAPK

  /** The `config` argument of `buildAPK`: the collector and the credential
      bundle the generate route assembled. */
  datatype BuildRequest = BuildRequest(
    cobradorId: string,
    nombre: string,
    token: string,
    dni: Option<string>,
    supabaseUrl: string,
    supabaseKey: string)

  /** The credentials handed to `modifyAPK`; the identity number falls back
      to `N/A`. */
  function EmbeddedCredentials(req: BuildRequest): Credentials {
    Credentials(req.token, req.nombre, OrElse(req.dni, "N/A"), req.supabaseUrl, req.supabaseKey)
  }

  /** What the final artifact holds: the base APK with the credentials
      embedded when it has the configuration entry, the base APK as it is
      otherwise. */
  function FinalContent(base: FileData, req: BuildRequest, nextAuthUrl: Option<string>,
                        generatedAt: string): FileData
  {
    if VerifyAPKStructure(Some(base))
    then Modified(base, EmbeddedCredentials(req), nextAuthUrl, generatedAt).value
    else base
  }

  /** The path `buildAPK` returns, relative to the working directory. */
  function ArtifactRelPath(req: BuildRequest): string {
    Render(OutputRel + [req.cobradorId, ArtifactName(req.nombre)])
  }

  /** A four-segment path, written out. */
  lemma RenderFour(a: string, b: string, c: string, d: string)
    ensures Render([a, b, c, d]) == a + "/" + b + "/" + c + "/" + d
  {
    assert [c, d][1..] == [d];
    assert Render([c, d]) == c + "/" + d;
    assert [b, c, d][1..] == [c, d];
    assert Render([b, c, d]) == b + "/" + c + "/" + d;
    assert [a, b, c, d][1..] == [b, c, d];
  }

  lemma RenderArtifactPath(req: BuildRequest)
    ensures ArtifactRelPath(req) == "storage/generated/" + req.cobradorId + "/" + ArtifactName(req.nombre)
  {
    var id, name := req.cobradorId, ArtifactName(req.nombre);
    assert OutputRel + [id, name] == ["storage", "generated", id, name];
    RenderFour("storage", "generated", id, name);
  }

  datatype BuildOutcome = BuildOutcome(result: Result<string>, nodes: map<Path, Node>)

  /** `buildAPK` step by step: the result and the disk afterwards. */
  function Build(nodes: map<Path, Node>, cwd: Path, req: BuildRequest, nextAuthUrl: Option<string>,
                 generatedAt: string, now: int): (r: BuildOutcome)
    ensures cwd + BaseApkRel !in nodes ==> r.result == Err(BaseMissingMessage) && r.nodes == nodes
    ensures r.result.Ok? ==> r.result.value == ArtifactRelPath(req)
    // After the base check, the first failing call's own error is passed on
    // and the disk is left as that call found it.
    ensures var outDir := cwd + OutputRel + [req.cobradorId];
            cwd + BaseApkRel in nodes && MkdirError(nodes, outDir).Some?
            ==> r == BuildOutcome(Err(MkdirError(nodes, outDir).value), nodes)
    ensures var outDir := cwd + OutputRel + [req.cobradorId];
            var n1 := MkdirAll(nodes, outDir, now);
            var copyError := CopyError(n1, cwd + BaseApkRel, outDir + [TempName]);
            cwd + BaseApkRel in nodes && MkdirError(nodes, outDir).None? && copyError.Some?
            ==> r == BuildOutcome(Err(copyError.value), n1)
    ensures var outDir := cwd + OutputRel + [req.cobradorId];
            var n1 := MkdirAll(nodes, outDir, now);
            var temp := outDir + [TempName];
            cwd + BaseApkRel in nodes && MkdirError(nodes, outDir).None? && CopyError(n1, cwd + BaseApkRel, temp).None?
            ==> var n2 := n1[temp := File(now, FinalContent(n1[cwd + BaseApkRel].content, req, nextAuthUrl, generatedAt))];
                var renameError := RenameError(n2, temp, outDir + [ArtifactName(req.nombre)]);
                (r.result.Ok? <==> renameError.None?)
                && (renameError.Some? ==> r == BuildOutcome(Err(renameError.value), n2))
  {
    var base := cwd + BaseApkRel;
    var outDir := cwd + OutputRel + [req.cobradorId];
    if base !in nodes then BuildOutcome(Err(BaseMissingMessage), nodes)
    else match MkdirError(nodes, outDir)
      case Some(e) => BuildOutcome(Err(e), nodes)
      case None => CopyAndRename(MkdirAll(nodes, outDir, now), base, outDir, req, nextAuthUrl, generatedAt, now)
  }

  /** The steps after the output directory exists: copy the base APK to
      `temp.apk`, with the credentials embedded when possible, then rename. */
  function CopyAndRename(n1: map<Path, Node>, base: Path, outDir: Path, req: BuildRequest,
                         nextAuthUrl: Option<string>, generatedAt: string, now: int): BuildOutcome
  {
    var temp := outDir + [TempName];
    match CopyError(n1, base, temp)
    case Some(e) => BuildOutcome(Err(e), n1)
    case None => RenameToFinal(n1[temp := File(now, FinalContent(n1[base].content, req, nextAuthUrl, generatedAt))], outDir, req)
  }

  /** The last step: `temp.apk` becomes the artifact. */
  function RenameToFinal(n2: map<Path, Node>, outDir: Path, req: BuildRequest): BuildOutcome {
    var temp := outDir + [TempName];
    var final := outDir + [ArtifactName(req.nombre)];
    match RenameError(n2, temp, final)
    case Some(e) => BuildOutcome(Err(e), n2)
    case None => BuildOutcome(Ok(ArtifactRelPath(req)), (n2 - {temp})[final := n2[temp]])
  }

  // ---------------------------------------------------------------------
  // cleanup

  /** `p` is a `.apk` entry directly in `dir` whose node is older than
      `maxAge` milliseconds at time `now`. */
  predicate AgedApkIn(nodes: map<Path, Node>, dir: Path, p: Path, now: int, maxAge: int) {
    p in nodes && |p| == |dir| + 1 && p[..|dir|] == dir && EndsWith(p[|dir|], ".apk")
    && now - nodes[p].mtime > maxAge
  }

  /** The files the sweep of one directory deletes. */
  ghost function StaleIn(nodes: map<Path, Node>, dir: Path, now: int, maxAge: int): set<Path> {
    set p | p in nodes && AgedApkIn(nodes, dir, p, now, maxAge) && nodes[p].File?
  }

  /** Aged directories named `*.apk`: unlinking one fails. */
  ghost function BlockingIn(nodes: map<Path, Node>, dir: Path, now: int, maxAge: int): set<Path> {
    set p | p in nodes && AgedApkIn(nodes, dir, p, now, maxAge) && nodes[p].Dir?
  }

  /** `p` is `<out>/<d>/<file>` with `<out>/<d>` a directory. */
  predicate InCollectorDir(nodes: map<Path, Node>, out: Path, p: Path) {
    |p| == |out| + 2 && p[..|out|] == out && IsDir(nodes, p[..|out| + 1])
  }

  /** The artifacts the whole sweep deletes: aged `.apk` files one level
      below the collectors' directories. */
  ghost function Stale(nodes: map<Path, Node>, out: Path, now: int, maxAge: int): (r: set<Path>)
    ensures r <= nodes.Keys
    ensures forall p :: p in r ==> nodes[p].File? && now - nodes[p].mtime > maxAge
  {
    set p | p in nodes && InCollectorDir(nodes, out, p) && p in StaleIn(nodes, p[..|out| + 1], now, maxAge)
  }

  ghost function Blocking(nodes: map<Path, Node>, out: Path, now: int, maxAge: int): set<Path> {
    set p | p in nodes && InCollectorDir(nodes, out, p) && p in BlockingIn(nodes, p[..|out| + 1], now, maxAge)
  }

  /** `after` is `before` with some of the paths in `s` removed, nothing
      else changed. */
  ghost predicate RemovedOnly(before: map<Path, Node>, after: map<Path, Node>, s: set<Path>) {
    (forall p :: p in after ==> p in before && after[p] == before[p])
    && (forall p :: p in before && p !in after ==> p in s)
  }

  lemma PathOfChild(dir: Path, p: Path)
    requires |p| == |dir| + 1 && p[..|dir|] == dir
    ensures p == dir + [p[|dir|]]
  {
  }

  /** A name `readdir` lists is the last segment of a path in the map. */
  lemma ChildPath(nodes: map<Path, Node>, dir: Path, name: string)
    requires name in Children(nodes, dir)
    ensures dir + [name] in nodes
  {
    var p :| p in nodes && |p| == |dir| + 1 && p[..|dir|] == dir && p[|dir|] == name;
    PathOfChild(dir, p);
  }

  lemma ChildOf(nodes: map<Path, Node>, dir: Path, p: Path)
    requires p in nodes && |p| == |dir| + 1 && p[..|dir|] == dir
    ensures p[|dir|] in Children(nodes, dir)
  {
  }

  /** Before the sweep of `<out>/<d>`, with the directories in `done` swept,
      the directory's stale and blocking entries are those of the whole
      sweep that lie under `d`. */
  lemma SweepSetsOfDir(before: map<Path, Node>, cur: map<Path, Node>, gone: set<Path>, out: Path,
                       done: seq<string>, d: string, now: int, maxAge: int)
    requires cur == before - gone && IsDir(before, out + [d]) && d !in done
    requires forall p :: p in gone ==> p in Stale(before, out, now, maxAge) && p[|out|] in done
    ensures forall p :: p in StaleIn(cur, out + [d], now, maxAge)
                        <==> p in Stale(before, out, now, maxAge) && p[|out|] == d
    ensures forall p :: p in BlockingIn(cur, out + [d], now, maxAge)
                        <==> p in Blocking(before, out, now, maxAge) && p[|out|] == d
  {
    var dir := out + [d];
    forall p | p in StaleIn(cur, dir, now, maxAge) || p in BlockingIn(cur, dir, now, maxAge)
      ensures p[..|out| + 1] == dir && p[|out|] == d && p[..|out|] == out
    {
      assert p[..|out| + 1] == p[..|dir|];
      assert p[|out|] == p[..|dir|][|out|];
      assert p[..|out|] == p[..|dir|][..|out|];
    }
    forall p | (p in Stale(before, out, now, maxAge) || p in Blocking(before, out, now, maxAge)) && p[|out|] == d
      ensures p[..|dir|] == dir && p !in gone
    {
      assert p[..|dir|] == p[..|out|] + [p[|out|]];
    }
  }

  /** When the sweep of `<out>/<d>` stops on an error, the disk is the
      original one minus some stale artifacts, and something blocked it. */
  lemma SweepStop(before: map<Path, Node>, cur: map<Path, Node>, after: map<Path, Node>, gone: set<Path>,
                  out: Path, d: string, now: int, maxAge: int)
    requires cur == before - gone
    requires forall p :: p in gone ==> p in Stale(before, out, now, maxAge)
    requires forall p :: p in StaleIn(cur, out + [d], now, maxAge)
                         <==> p in Stale(before, out, now, maxAge) && p[|out|] == d
    requires forall p :: p in BlockingIn(cur, out + [d], now, maxAge)
                         <==> p in Blocking(before, out, now, maxAge) && p[|out|] == d
    requires BlockingIn(cur, out + [d], now, maxAge) != {}
    requires RemovedOnly(cur, after, StaleIn(cur, out + [d], now, maxAge))
    ensures Blocking(before, out, now, maxAge) != {}
    ensures RemovedOnly(before, after, Stale(before, out, now, maxAge))
  {
    var b :| b in BlockingIn(cur, out + [d], now, maxAge);
    assert b in Blocking(before, out, now, maxAge);
  }

  /** Directory entries of `<out>` that are files hold no artifacts. */
  lemma NoneUnderFile(before: map<Path, Node>, out: Path, d: string, now: int, maxAge: int)
    requires !IsDir(before, out + [d])
    ensures forall p :: p in Stale(before, out, now, maxAge) ==> p[|out|] != d
    ensures forall p :: p in Blocking(before, out, now, maxAge) ==> p[|out|] != d
  {
    forall p | p in Stale(before, out, now, maxAge) || p in Blocking(before, out, now, maxAge)
      ensures p[..|out| + 1] == out + [p[|out|]]
    {
      assert p[..|out| + 1] == p[..|out|] + [p[|out|]];
    }
  }

  /** Once every entry of `<out>` is swept, all stale artifacts are gone and
      nothing blocked the sweep. */
  lemma AllSwept(before: map<Path, Node>, gone: set<Path>, out: Path, dirs: seq<string>, now: int, maxAge: int)
    requires forall n :: n in dirs <==> n in Children(before, out)
    requires forall p :: p in gone <==> p in Stale(before, out, now, maxAge) && p[|out|] in dirs
    requires forall p :: p in Blocking(before, out, now, maxAge) ==> p[|out|] !in dirs
    ensures gone == Stale(before, out, now, maxAge)
    ensures Blocking(before, out, now, maxAge) == {}
  {
    forall p | p in Stale(before, out, now, maxAge) || p in Blocking(before, out, now, maxAge)
      ensures p[|out|] in dirs
    {
      assert p[..|out| + 1] == p[..|out|] + [p[|out|]];
      ChildOf(before, out, p[..|out| + 1]);
    }
  }

  /** The builder: its fixed locations under the working directory, and the
      disk it works on. */
  class APKBuilder {
    const cwd: Path
    const fs: FileSystem
    const baseApkPath: Path
    const outputDir: Path
    const keystorePath: Path

    constructor (cwd: Path, fs: FileSystem)
      ensures this.cwd == cwd && this.fs == fs
      ensures baseApkPath == cwd + BaseApkRel && outputDir == cwd + OutputRel
      ensures keystorePath == cwd + KeystoreRel
    {
      this.cwd := cwd;
      this.fs := fs;
      baseApkPath := cwd + BaseApkRel;
      outputDir := cwd + OutputRel;
      keystorePath := cwd + KeystoreRel;
    }

    ghost predicate Valid() {
      baseApkPath == cwd + BaseApkRel && outputDir == cwd + OutputRel
      && keystorePath == cwd + KeystoreRel
    }

    /** `buildAPK`: check the base APK, create the output directory, copy the
        base APK to `temp.apk`, embed the credentials when the structure
        check passes, rename to the artifact name, return its relative path.
        Every failure is passed on with its own message. */
    method BuildAPK(req: BuildRequest, nextAuthUrl: Option<string>, generatedAt: string, now: int)
      returns (r: Result<string>)
      requires Valid()
      modifies fs
      ensures Build(old(fs.nodes), cwd, req, nextAuthUrl, generatedAt, now) == BuildOutcome(r, fs.nodes)
    {
      if baseApkPath !in fs.nodes {
        return Err(BaseMissingMessage);
      }
      var outputPath := outputDir + [req.cobradorId];
      var mk := fs.Mkdirp(outputPath, now);
      if mk.Some? {
        return Err(mk.value);
      }
      r := CopyEmbedRename(outputPath, req, nextAuthUrl, generatedAt, now);
    }

    /** The rest of `buildAPK` once the output directory exists: copy the
        base APK to `temp.apk`, embed the credentials when the structure
        check passes, and rename the copy to the artifact name. */
    method CopyEmbedRename(outputPath: Path, req: BuildRequest, nextAuthUrl: Option<string>,
                           generatedAt: string, now: int)
      returns (r: Result<string>)
      modifies fs
      ensures CopyAndRename(old(fs.nodes), baseApkPath, outputPath, req, nextAuthUrl, generatedAt, now)
              == BuildOutcome(r, fs.nodes)
    {
      ghost var n1 := fs.nodes;
      var tempApkPath := outputPath + [TempName];
      var cp := fs.CopyFile(baseApkPath, tempApkPath, now);
      if cp.Some? {
        return Err(cp.value);
      }
      var content := n1[baseApkPath].content;
      assert fs.nodes == n1[tempApkPath := File(now, content)];
      Embed(tempApkPath, req, nextAuthUrl, generatedAt, now);
      ghost var final := File(now, FinalContent(content, req, nextAuthUrl, generatedAt));
      UpdateTwice(n1, tempApkPath, File(now, content), final);
      r := RenameArtifact(outputPath, req);
    }

    /** The last step of `buildAPK`: `temp.apk` is renamed to the artifact
        name, whose relative path is returned. */
    method RenameArtifact(outputPath: Path, req: BuildRequest) returns (r: Result<string>)
      modifies fs
      ensures RenameToFinal(old(fs.nodes), outputPath, req) == BuildOutcome(r, fs.nodes)
    {
      var outputApkPath := outputPath + [ArtifactName(req.nombre)];
      var tempApkPath := outputPath + [TempName];
      var rn := fs.Rename(tempApkPath, outputApkPath);
      if rn.Some? {
        return Err(rn.value);
      }
      r := Ok(ArtifactRelPath(req));
    }

    /** The middle of `buildAPK`: when the copy at `tempApkPath` passes the
        structure check, the credentials are embedded and written back. */
    method Embed(tempApkPath: Path, req: BuildRequest, nextAuthUrl: Option<string>,
                 generatedAt: string, now: int)
      requires IsFile(fs.nodes, tempApkPath) && fs.nodes[tempApkPath].mtime == now
      modifies fs
      ensures fs.nodes == old(fs.nodes)[tempApkPath := File(now, FinalContent(old(fs.nodes)[tempApkPath].content,
                                                                              req, nextAuthUrl, generatedAt))]
    {
      var copied := fs.nodes[tempApkPath].content;
      var hasValidStructure := VerifyAPKStructure(Some(copied));
      if hasValidStructure {
        var modified := ModifyAPK(copied, EmbeddedCredentials(req), nextAuthUrl, generatedAt);
        fs.WriteFile(tempApkPath, modified.value, now);
      }
    }

    /** `cleanup(daysOld)`: deletes every `.apk` file older than `daysOld`
        days in the collectors' directories and returns how many it deleted.
        A failing `readdir` or `unlink` is passed on; the sweep stops there. */
    method Cleanup(daysOld: int, now: int) returns (r: Result<nat>)
      requires Valid()
      modifies fs
      ensures !IsDir(old(fs.nodes), outputDir) ==> r.Err? && fs.nodes == old(fs.nodes)
      ensures var maxAge := daysOld * MsPerDay;
              IsDir(old(fs.nodes), outputDir) && Blocking(old(fs.nodes), outputDir, now, maxAge) == {}
              ==> r == Ok(|Stale(old(fs.nodes), outputDir, now, maxAge)|)
                  && fs.nodes == old(fs.nodes) - Stale(old(fs.nodes), outputDir, now, maxAge)
      ensures var maxAge := daysOld * MsPerDay;
              Blocking(old(fs.nodes), outputDir, now, maxAge) != {}
              ==> r.Err? && RemovedOnly(old(fs.nodes), fs.nodes, Stale(old(fs.nodes), outputDir, now, maxAge))
    {
      var maxAge := daysOld * MsPerDay;
      ghost var before := fs.nodes;
      ghost var stale := Stale(before, outputDir, now, maxAge);
      ghost var blocking := Blocking(before, outputDir, now, maxAge);
      var cobradorDirs := fs.Readdir(outputDir);
      if cobradorDirs.Err? {
        return Err(cobradorDirs.message);
      }
      var dirs := cobradorDirs.value;
      var deleted := 0;
      ghost var gone: set<Path> := {};
      var i := 0;
      while i < |dirs|
        invariant 0 <= i <= |dirs|
        invariant forall p :: p in gone <==> p in stale && p[|outputDir|] in dirs[..i]
        invariant fs.nodes == before - gone
        invariant deleted == |gone|
        invariant forall p :: p in blocking ==> p[|outputDir|] !in dirs[..i]
      {
        ChildPath(before, outputDir, dirs[i]);
        assert dirs[i] !in dirs[..i];
        var count, err, swept := SweepCollector(dirs[i], now, maxAge, before, gone, dirs[..i]);
        if err.Some? {
          return Err(err.value);
        }
        deleted := deleted + count;
        gone := gone + swept;
        assert dirs[..i + 1] == dirs[..i] + [dirs[i]];
        i := i + 1;
      }
      assert dirs[..i] == dirs;
      AllSwept(before, gone, outputDir, dirs, now, maxAge);
      r := Ok(deleted);
    }

    /** One entry of the outer loop of `cleanup`: a directory is swept, any
        other entry skipped. `swept` is what it deletes. */
    method SweepCollector(d: string, now: int, maxAge: int, ghost before: map<Path, Node>,
                          ghost gone: set<Path>, ghost done: seq<string>)
      returns (count: nat, err: Option<string>, ghost swept: set<Path>)
      requires Valid()
      requires fs.nodes == before - gone && outputDir + [d] in before && d !in done
      requires forall p :: p in gone ==> p in Stale(before, outputDir, now, maxAge) && p[|outputDir|] in done
      modifies fs
      ensures err.None? ==> (forall p :: p in swept <==> p in Stale(before, outputDir, now, maxAge) && p[|outputDir|] == d)
                            && fs.nodes == before - (gone + swept) && count == |swept| && gone * swept == {}
                            && forall p :: p in Blocking(before, outputDir, now, maxAge) ==> p[|outputDir|] != d
      ensures err.Some? ==> Blocking(before, outputDir, now, maxAge) != {}
                            && RemovedOnly(before, fs.nodes, Stale(before, outputDir, now, maxAge))
    {
      var dirPath := outputDir + [d];
      assert dirPath !in gone;
      swept := {};
      if fs.nodes[dirPath].Dir? {
        ghost var cur := fs.nodes;
        SweepSetsOfDir(before, cur, gone, outputDir, done, d, now, maxAge);
        count, err := SweepDir(dirPath, now, maxAge);
        if err.Some? {
          SweepStop(before, cur, fs.nodes, gone, outputDir, d, now, maxAge);
          return;
        }
        swept := StaleIn(cur, dirPath, now, maxAge);
        assert gone * swept == {};
        assert fs.nodes == before - (gone + swept);
      } else {
        NoneUnderFile(before, outputDir, d, now, maxAge);
        count, err := 0, None;
      }
    }

    /** The inner loop of `cleanup` over one collector's directory. */
    method SweepDir(dir: Path, now: int, maxAge: int) returns (count: nat, err: Option<string>)
      requires IsDir(fs.nodes, dir)
      modifies fs
      ensures err.None? <==> BlockingIn(old(fs.nodes), dir, now, maxAge) == {}
      ensures err.None? ==> fs.nodes == old(fs.nodes) - StaleIn(old(fs.nodes), dir, now, maxAge)
                            && count == |StaleIn(old(fs.nodes), dir, now, maxAge)|
      ensures err.Some? ==> RemovedOnly(old(fs.nodes), fs.nodes, StaleIn(old(fs.nodes), dir, now, maxAge))
    {
      ghost var before := fs.nodes;
      ghost var stale := StaleIn(before, dir, now, maxAge);
      ghost var blocking := BlockingIn(before, dir, now, maxAge);
      var files := fs.Readdir(dir);
      var names := files.value;
      ghost var gone: set<Path> := {};
      count := 0;
      var j := 0;
      while j < |names|
        invariant 0 <= j <= |names|
        invariant forall p :: p in gone <==> p in stale && p[|dir|] in names[..j]
        invariant fs.nodes == before - gone
        invariant count == |gone|
        invariant forall p :: p in blocking ==> p[|dir|] !in names[..j]
      {
        var file := names[j];
        ChildPath(before, dir, file);
        var filePath := dir + [file];
        assert filePath !in gone by {
          assert file !in names[..j];
        }
        forall p | (p in stale || p in blocking) && p[|dir|] == file ensures p == filePath {
          PathOfChild(dir, p);
        }
        var removed, e := SweepFile(dir, file, now, maxAge, before, gone);
        if e.Some? {
          return count, e;
        }
        if removed {
          gone := gone + {filePath};
          count := count + 1;
        }
        assert names[..j + 1] == names[..j] + [file];
        j := j + 1;
      }
      assert names[..j] == names;
      forall p | p in stale ensures p in gone {
        ChildOf(before, dir, p);
      }
      assert gone == stale;
      assert blocking == {} by {
        forall p | p in blocking ensures false {
          ChildOf(before, dir, p);
        }
      }
      err := None;
    }

    /** One entry of the inner loop: a `.apk` name older than `maxAge` is
        unlinked. */
    method SweepFile(dir: Path, file: string, now: int, maxAge: int,
                     ghost before: map<Path, Node>, ghost gone: set<Path>)
      returns (removed: bool, err: Option<string>)
      requires fs.nodes == before - gone && dir + [file] in before && dir + [file] !in gone
      modifies fs
      ensures removed <==> err.None? && dir + [file] in StaleIn(before, dir, now, maxAge)
      ensures err.Some? <==> dir + [file] in BlockingIn(before, dir, now, maxAge)
      ensures fs.nodes == if removed then before - (gone + {dir + [file]}) else before - gone
    {
      var filePath := dir + [file];
      assert filePath[..|dir|] == dir && filePath[|dir|] == file;
      removed, err := false, None;
      if EndsWith(file, ".apk") {
        if now - fs.nodes[filePath].mtime > maxAge {
          err := fs.Unlink(filePath);
          removed := err.None?;
        }
      }
    }

    /** `checkTools`: true exactly when the keystore exists. */
    function CheckTools(): (r: bool)
      reads this, fs
      ensures r <==> keystorePath in fs.nodes
    {
      keystorePath in fs.nodes
    }
  }

  /** Without the base APK, `buildAPK` fails with its own message before any
      directory is created or any file copied. */
  lemma BuildNeedsBaseApk(nodes: map<Path, Node>, cwd: Path, req: BuildRequest,
                          nextAuthUrl: Option<string>, generatedAt: string, now: int)
    requires cwd + BaseApkRel !in nodes
    ensures Build(nodes, cwd, req, nextAuthUrl, generatedAt, now)
            == BuildOutcome(Err(BaseMissingMessage), nodes)
  {
  }

  lemma TempDiffersFromBase(cwd: Path, id: string, name: string)
    ensures cwd + OutputRel + [id] + [name] != cwd + BaseApkRel
  {
    assert (cwd + OutputRel + [id] + [name])[|cwd| + 1] == "generated";
    assert (cwd + BaseApkRel)[|cwd| + 1] == "base-apk";
  }

  /** A successful build returns `storage/generated/<id>/APK_<name>_v1.apk`;
      that file holds the base APK with the credentials embedded exactly when
      the base APK has the configuration entry, and no `temp.apk` remains. */
  lemma BuildSuccess(nodes: map<Path, Node>, cwd: Path, req: BuildRequest,
                     nextAuthUrl: Option<string>, generatedAt: string, now: int)
    requires Build(nodes, cwd, req, nextAuthUrl, generatedAt, now).result.Ok?
    ensures var out := Build(nodes, cwd, req, nextAuthUrl, generatedAt, now);
            var outDir := cwd + OutputRel + [req.cobradorId];
            var final := outDir + ["APK_" + Sanitize(req.nombre) + "_v1.apk"];
            && out.result.value == "storage/generated/" + req.cobradorId + "/" + ArtifactName(req.nombre)
            && IsFile(nodes, cwd + BaseApkRel)
            && final in out.nodes
            && out.nodes[final] == File(now, FinalContent(nodes[cwd + BaseApkRel].content, req, nextAuthUrl, generatedAt))
            && outDir + [TempName] !in out.nodes
  {
    var base := cwd + BaseApkRel;
    var outDir := cwd + OutputRel + [req.cobradorId];
    var n1 := MkdirAll(nodes, outDir, now);
    var temp := outDir + [TempName];
    var final := outDir + [ArtifactName(req.nombre)];
    RenderArtifactPath(req);
    TempDiffersFromBase(cwd, req.cobradorId, TempName);
    ArtifactNameIsNotTemp(req.nombre);
    assert temp != final by {
      assert temp[|outDir|] != final[|outDir|];
    }
    assert base in nodes && MkdirError(nodes, outDir).None?;
    assert n1[base] == nodes[base];
    var n2 := n1[temp := File(now, FinalContent(n1[base].content, req, nextAuthUrl, generatedAt))];
    assert CopyError(n1, base, temp).None?;
    assert RenameError(n2, temp, final).None?;
  }

  /** `buildAPK` succeeds on a disk where the base APK is a file, no file
      stands on the way to the collector's output directory, and neither
      `temp.apk` nor the artifact's name is taken by a directory. */
  lemma BuildSucceeds(nodes: map<Path, Node>, cwd: Path, req: BuildRequest,
                      nextAuthUrl: Option<string>, generatedAt: string, now: int)
    requires IsFile(nodes, cwd + BaseApkRel)
    requires forall j :: 1 <= j <= |cwd + OutputRel + [req.cobradorId]| ==>
               !IsFile(nodes, (cwd + OutputRel + [req.cobradorId])[..j])
    requires !IsDir(nodes, cwd + OutputRel + [req.cobradorId, TempName])
    requires !IsDir(nodes, cwd + OutputRel + [req.cobradorId, ArtifactName(req.nombre)])
    ensures Build(nodes, cwd, req, nextAuthUrl, generatedAt, now).result == Ok(ArtifactRelPath(req))
  {
    var base := cwd + BaseApkRel;
    var outDir := cwd + OutputRel + [req.cobradorId];
    var temp := outDir + [TempName];
    var final := outDir + [ArtifactName(req.nombre)];
    assert temp == cwd + OutputRel + [req.cobradorId, TempName];
    assert final == cwd + OutputRel + [req.cobradorId, ArtifactName(req.nombre)];
    assert MkdirError(nodes, outDir).None?;
    var n1 := MkdirAll(nodes, outDir, now);
    TempDiffersFromBase(cwd, req.cobradorId, TempName);
    ArtifactNameIsNotTemp(req.nombre);
    assert temp != final by {
      assert temp[|outDir|] != final[|outDir|];
    }
    assert temp !in Prefixes(outDir) && final !in Prefixes(outDir);
    assert outDir[..|outDir|] == outDir;
    assert Parent(temp) == outDir && IsDir(n1, outDir);
    assert n1[base] == nodes[base];
    assert CopyError(n1, base, temp).None?;
    var n2 := n1[temp := File(now, FinalContent(n1[base].content, req, nextAuthUrl, generatedAt))];
    assert !IsDir(n2, final);
    assert RenameError(n2, temp, final).None?;
  }

  /** The artifact of a successful build reads back, through
      `extractConfig`, as the collector's credentials (identity number
      `N/A` when none was given) when the base APK has the configuration
      entry; otherwise it is the base APK unchanged. */
  lemma BuildEmbedsCredentials(nodes: map<Path, Node>, cwd: Path, req: BuildRequest,
                               nextAuthUrl: Option<string>, generatedAt: string, now: int)
    requires Build(nodes, cwd, req, nextAuthUrl, generatedAt, now).result.Ok?
    ensures var out := Build(nodes, cwd, req, nextAuthUrl, generatedAt, now);
            var base := nodes[cwd + BaseApkRel].content;
            var final := cwd + OutputRel + [req.cobradorId, ArtifactName(req.nombre)];
            final in out.nodes && out.nodes[final].File?
            && (VerifyAPKStructure(Some(base)) ==>
                  ExtractConfig(Some(out.nodes[final].content))
                  == Some(NewConfig(Credentials(req.token, req.nombre, OrElse(req.dni, "N/A"),
                                                req.supabaseUrl, req.supabaseKey),
                                    nextAuthUrl, generatedAt)))
            && (!VerifyAPKStructure(Some(base)) ==> out.nodes[final].content == base)
  {
    BuildSuccess(nodes, cwd, req, nextAuthUrl, generatedAt, now);
    assert cwd + OutputRel + [req.cobradorId, ArtifactName(req.nombre)]
           == cwd + OutputRel + [req.cobradorId] + [ArtifactName(req.nombre)];
    var base := nodes[cwd + BaseApkRel].content;
    if VerifyAPKStructure(Some(base)) {
      ExtractAfterModify(base.entries, EmbeddedCredentials(req), nextAuthUrl, generatedAt);
    }
  }

  /** Whatever the outcome, `buildAPK` changes no path other than the
      directories it creates, `temp.apk` and the artifact. */
  lemma BuildTouchesOnlyItsPaths(nodes: map<Path, Node>, cwd: Path, req: BuildRequest,
                                 nextAuthUrl: Option<string>, generatedAt: string, now: int, q: Path)
    requires q in nodes
    requires q != cwd + OutputRel + [req.cobradorId, TempName]
    requires q != cwd + OutputRel + [req.cobradorId, ArtifactName(req.nombre)]
    ensures var out := Build(nodes, cwd, req, nextAuthUrl, generatedAt, now);
            q in out.nodes && out.nodes[q] == nodes[q]
  {
    assert cwd + OutputRel + [req.cobradorId, TempName] == cwd + OutputRel + [req.cobradorId] + [TempName];
    assert cwd + OutputRel + [req.cobradorId, ArtifactName(req.nombre)]
           == cwd + OutputRel + [req.cobradorId] + [ArtifactName(req.nombre)];
  }

  /** A second sweep right after a complete one finds nothing to delete. */
  lemma CleanupIdempotent(nodes: map<Path, Node>, out: Path, now: int, maxAge: int)
    ensures Stale(nodes - Stale(nodes, out, now, maxAge), out, now, maxAge) == {}
  {
  }

  /** A stale path is an `.apk` file, older than the limit, directly inside a
      collector's directory of the output directory. */
  lemma StaleAreAgedApks(nodes: map<Path, Node>, out: Path, now: int, maxAge: int, p: Path)
    requires p in Stale(nodes, out, now, maxAge)
    ensures nodes[p].File? && now - nodes[p].mtime > maxAge
    ensures |p| == |out| + 2 && p[..|out|] == out && IsDir(nodes, p[..|out| + 1])
    ensures EndsWith(p[|out| + 1], ".apk")
  {
  }

  /** Deleting the stale files blocks nothing new: a second sweep with the
      same clock meets the same directories, so when the first one
      succeeded, so does the second, and it deletes nothing. */
  lemma CleanupSecondRunDeletesNothing(nodes: map<Path, Node>, out: Path, now: int, maxAge: int)
    ensures var after := nodes - Stale(nodes, out, now, maxAge);
            Blocking(after, out, now, maxAge) == Blocking(nodes, out, now, maxAge)
            && |Stale(after, out, now, maxAge)| == 0
  {
    var after := nodes - Stale(nodes, out, now, maxAge);
    CleanupIdempotent(nodes, out, now, maxAge);
    forall p | p in Blocking(nodes, out, now, maxAge)
      ensures p in Blocking(after, out, now, maxAge)
    {
      assert nodes[p].Dir?;
      assert IsDir(nodes, p[..|out| + 1]);
    }
  }
}
