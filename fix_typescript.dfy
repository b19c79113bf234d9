/** The one-off script that patches known TypeScript errors: for each file
    of a fixed list, apply its text replacements in order and write the
    file back when any applied. The disk maps a path to its text. */
module FixTypescript {
  import opened Common

  datatype Replacement = Replacement(from: string, to: string)

  datatype Fix = Fix(file: string, replacements: seq<Replacement>)

  /** `content.replace(from, to)` with a string pattern: the first
      occurrence only. */
  function ReplaceFirst(s: string, from: string, to: string): (r: string)
    ensures !Contains(s, from) ==> r == s
    ensures Contains(s, from) ==>
              var k := IndexOf(s, from).value;
              |r| == |s| - |from| + |to| && r[..k] == s[..k] && OccursAt(r, to, k)
              && r[k + |to|..] == s[k + |from|..]
  {
    match IndexOf(s, from)
    case None => s
    case Some(k) => s[..k] + to + s[k + |from|..]
  }

  /** Replacing back restores the text, when no occurrence of `to` can
      start before the replaced one. */
  lemma ReplaceFirstUndone(s: string, from: string, to: string)
    requires Contains(s, from) && to != []
    requires forall j :: 0 <= j < IndexOf(s, from).value ==> s[j] != to[0]
    ensures ReplaceFirst(ReplaceFirst(s, from, to), to, from) == s
  {
    var k := IndexOf(s, from).value;
    var t := ReplaceFirst(s, from, to);
    assert t[k] == to[0];
    forall j | 0 <= j < k
      ensures !OccursAt(t, to, j)
    {
      assert t[j] == s[j];
    }
    assert OccursAt(t, to, k);
    ContainsIff(t, to);
    assert IndexOf(t, to) == Some(k);
    assert s == s[..k] + from + s[k + |from|..];
  }

  /** The text after the replacements, each applied to the result of the
      one before. */
  function Patch(content: string, reps: seq<Replacement>): string
    decreases |reps|
  {
    if reps == [] then content else Patch(ReplaceFirst(content, reps[0].from, reps[0].to), reps[1..])
  }

  /** Some replacement found its `from` in the text it was applied to. */
  predicate Applies(content: string, reps: seq<Replacement>)
    decreases |reps|
  {
    reps != [] && (Contains(content, reps[0].from) || Applies(ReplaceFirst(content, reps[0].from, reps[0].to), reps[1..]))
  }

  /** When no replacement applies, the text is as it was, so not writing it
      loses nothing. */
  lemma {:induction false} PatchWithoutMatchIsIdentity(content: string, reps: seq<Replacement>)
    requires !Applies(content, reps)
    ensures Patch(content, reps) == content
    decreases |reps|
  {
    if reps != [] {
      PatchWithoutMatchIsIdentity(content, reps[1..]);
    }
  }

  lemma UnpatchedFileIsUnchanged(files: map<string, string>, path: string, reps: seq<Replacement>)
    ensures path in files && !Applies(files[path], reps) ==> Patch(files[path], reps) == files[path]
  {
    if path in files && !Applies(files[path], reps) {
      PatchWithoutMatchIsIdentity(files[path], reps);
    }
  }

  /** The disk after `fixFile`: the file is rewritten when it exists and a
      replacement applied. */
  function FixedFiles(files: map<string, string>, path: string, reps: seq<Replacement>): (r: map<string, string>)
    ensures r.Keys == files.Keys
    ensures forall p :: p in files && p != path ==> r[p] == files[p]
    ensures path in files ==> r[path] == Patch(files[path], reps)
  {
    if path in files && Applies(files[path], reps) then files[path := Patch(files[path], reps)]
    else
      UnpatchedFileIsUnchanged(files, path, reps);
      files
  }

  /** The disk after the whole list, one file after another. */
  function FixedAll(files: map<string, string>, fixes: seq<Fix>): map<string, string>
    decreases |fixes|
  {
    if fixes == [] then files else FixedAll(FixedFiles(files, fixes[0].file, fixes[0].replacements), fixes[1..])
  }

  /** The script never creates or deletes a file, and leaves every file the
      list does not name as it was. */
  lemma {:induction false} FixedAllTouchesOnlyListed(files: map<string, string>, fixes: seq<Fix>, p: string)
    ensures FixedAll(files, fixes).Keys == files.Keys
    ensures p in files && (forall i :: 0 <= i < |fixes| ==> fixes[i].file != p) ==> FixedAll(files, fixes)[p] == files[p]
    decreases |fixes|
  {
    if fixes != [] {
      FixedAllTouchesOnlyListed(FixedFiles(files, fixes[0].file, fixes[0].replacements), fixes[1..], p);
      if p in files && (forall i :: 0 <= i < |fixes| ==> fixes[i].file != p) {
        assert forall i :: 0 <= i < |fixes[1..]| ==> fixes[1..][i].file == fixes[i + 1].file;
        assert fixes[0].file != p;
      }
    }
  }

  datatype FixResult = ReadFailed | Untouched | Rewritten

  class Disk {
    var files: map<string, string>

    constructor (files: map<string, string>)
      ensures this.files == files
    {
      this.files := files;
    }

    /** `fixFile`: a missing file is an error that is reported and skipped. */
    method FixFile(path: string, reps: seq<Replacement>) returns (result: FixResult)
      modifies this
      ensures files == FixedFiles(old(files), path, reps)
      ensures result == ReadFailed <==> path !in old(files)
      ensures result == Rewritten <==> path in old(files) && Applies(old(files)[path], reps)
    {
      if path !in files {
        return ReadFailed;
      }
      var original := files[path];
      var content := original;
      var modified := false;
      var i := 0;
      while i < |reps|
        invariant 0 <= i <= |reps|
        invariant Patch(content, reps[i..]) == Patch(original, reps)
        invariant (modified || Applies(content, reps[i..])) == Applies(original, reps)
        invariant !modified ==> content == original
      {
        assert reps[i..][0] == reps[i] && reps[i..][1..] == reps[i + 1..];
        if Contains(content, reps[i].from) {
          content := ReplaceFirst(content, reps[i].from, reps[i].to);
          modified := true;
        }
        i := i + 1;
      }
      if modified {
        files := files[path := content];
        result := Rewritten;
      } else {
        result := Untouched;
      }
    }

    /** The main loop: every file of the list is attempted, whatever
        happened to the ones before. */
    method FixAll(fixes: seq<Fix>) returns (results: seq<FixResult>)
      modifies this
      ensures files == FixedAll(old(files), fixes)
      ensures |results| == |fixes|
      ensures forall i :: 0 <= i < |fixes| ==> (results[i] == ReadFailed <==> fixes[i].file !in old(files))
    {
      results := [];
      var i := 0;
      while i < |fixes|
        invariant 0 <= i <= |fixes|
        invariant FixedAll(files, fixes[i..]) == FixedAll(old(files), fixes)
        invariant files.Keys == old(files).Keys
        invariant |results| == i
        invariant forall j :: 0 <= j < i ==> (results[j] == ReadFailed <==> fixes[j].file !in old(files))
      {
        assert fixes[i..][0] == fixes[i] && fixes[i..][1..] == fixes[i + 1..];
        var r := FixFile(fixes[i].file, fixes[i].replacements);
        results := results + [r];
        i := i + 1;
      }
    }
  }
}
