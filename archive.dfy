/** An APK opened as a ZIP archive: an ordered sequence of named entries.
    The byte layout and compression of the container are not modelled; an
    opened archive never holds two entries with the same name, because the
    archive library indexes its entries by name. */
module Archive {
  import opened Common

  /** Raw entry payload. Text is stored one code point per unit. */
  type Bytes = seq<int>

  datatype Entry = Entry(name: string, data: Bytes)

  function Names(es: seq<Entry>): (ns: seq<string>)
    ensures |ns| == |es|
    ensures forall i :: 0 <= i < |es| ==> ns[i] == es[i].name
  {
    if es == [] then [] else [es[0].name] + Names(es[1..])
  }

  ghost predicate UniqueNames(es: seq<Entry>) {
    forall i, j :: 0 <= i < j < |es| ==> es[i].name != es[j].name
  }

  /** The entry list of an opened archive. */
  type Entries = es: seq<Entry> | UniqueNames(es) witness []

  /** What a file on disk holds: a readable archive, or something the archive
      library refuses to open, with the reason it gives. */
  datatype FileData = Zip(entries: Entries) | Unreadable(reason: string)

  /** `zip.getEntry(name)` followed by reading its data. */
  function Lookup(es: seq<Entry>, name: string): (r: Option<Bytes>)
    ensures r.None? <==> name !in Names(es)
    ensures r.Some? ==> exists i :: 0 <= i < |es| && es[i] == Entry(name, r.value)
  {
    if es == [] then None
    else if es[0].name == name then Some(es[0].data)
    else Lookup(es[1..], name)
  }

  /** The entries not named `name`, in their order. */
  function Others(es: seq<Entry>, name: string): (r: seq<Entry>)
    ensures |r| <= |es|
  {
    if es == [] then []
    else if es[0].name == name then Others(es[1..], name)
    else [es[0]] + Others(es[1..], name)
  }

  /** Create-or-replace: the entry `name` gets `data`, in place when it is
      already there, appended at the end otherwise. */
  function Put(es: seq<Entry>, name: string, data: Bytes): (r: seq<Entry>)
    ensures Names(r) == if name in Names(es) then Names(es) else Names(es) + [name]
    ensures UniqueNames(es) ==> UniqueNames(r)
  {
    if es == [] then [Entry(name, data)]
    else if es[0].name == name then [Entry(name, data)] + es[1..]
    else [es[0]] + Put(es[1..], name, data)
  }

  lemma UniqueTail(es: seq<Entry>)
    requires UniqueNames(es) && es != []
    ensures UniqueNames(es[1..]) && es[0].name !in Names(es[1..])
  {
    assert forall k :: 0 <= k < |es[1..]| ==> es[1..][k].name != es[0].name by {
      forall k | 0 <= k < |es[1..]| ensures es[1..][k].name != es[0].name {
        assert es[1..][k] == es[k + 1];
      }
    }
  }

  /** After `Put`, the entry reads back as the data just written. */
  lemma {:induction false} LookupPut(es: seq<Entry>, name: string, data: Bytes)
    ensures Lookup(Put(es, name, data), name) == Some(data)
  {
    if es != [] && es[0].name != name {
      LookupPut(es[1..], name, data);
    }
  }

  /** `Put` leaves every other entry, its data and its relative order, alone. */
  lemma {:induction false} OthersPut(es: seq<Entry>, name: string, data: Bytes)
    requires UniqueNames(es)
    ensures Others(Put(es, name, data), name) == Others(es, name)
  {
    if es == [] {
    } else if es[0].name == name {
      UniqueTail(es);
      OthersWithout(es[1..], name);
    } else {
      UniqueTail(es);
      OthersPut(es[1..], name, data);
    }
  }

  lemma {:induction false} OthersWithout(es: seq<Entry>, name: string)
    requires name !in Names(es)
    ensures Others(es, name) == es
  {
    if es != [] {
      assert Names(es)[0] == es[0].name;
      assert Names(es[1..]) == Names(es)[1..];
      OthersWithout(es[1..], name);
    }
  }

  /** Lookups of other names are unaffected by `Put`. */
  lemma {:induction false} LookupPutOther(es: seq<Entry>, name: string, data: Bytes, other: string)
    requires other != name
    ensures Lookup(Put(es, name, data), other) == Lookup(es, other)
  {
    if es != [] && es[0].name != name {
      LookupPutOther(es[1..], name, data, other);
    }
  }

  /** A name not yet present is appended at the end. */
  lemma {:induction false} PutFresh(es: seq<Entry>, name: string, data: Bytes)
    requires name !in Names(es)
    ensures Put(es, name, data) == es + [Entry(name, data)]
  {
    if es != [] {
      assert Names(es)[0] == es[0].name;
      assert Names(es[1..]) == Names(es)[1..];
      PutFresh(es[1..], name, data);
    }
  }

  /** In an archive with unique names, the entry at `i` is the one `Lookup` finds. */
  lemma {:induction false} LookupAt(es: seq<Entry>, i: nat)
    requires UniqueNames(es) && i < |es|
    ensures Lookup(es, es[i].name) == Some(es[i].data)
  {
    if i > 0 {
      UniqueTail(es);
      assert es[0].name != es[i].name;
      LookupAt(es[1..], i - 1);
    }
  }

  /** Writing the data an entry already holds changes nothing. */
  lemma {:induction false} PutSame(es: seq<Entry>, name: string, data: Bytes)
    requires UniqueNames(es) && Lookup(es, name) == Some(data)
    ensures Put(es, name, data) == es
  {
    if es[0].name != name {
      UniqueTail(es);
      PutSame(es[1..], name, data);
    }
  }

  /** `Put` is idempotent. */
  lemma PutTwice(es: seq<Entry>, name: string, data: Bytes)
    requires UniqueNames(es)
    ensures Put(Put(es, name, data), name, data) == Put(es, name, data)
  {
    LookupPut(es, name, data);
    PutSame(Put(es, name, data), name, data);
  }

  /** The in-memory archive object of the ZIP library: its entry list is
      updated in place by `addFile` and `updateFile`. */
  class ZipArchive {
    var entries: Entries

    /** `new AdmZip()`: an empty archive. */
    constructor Empty()
      ensures entries == []
    {
      entries := [];
    }

    /** `new AdmZip(path)` on a readable file: the archive's entries. */
    constructor Open(es: Entries)
      ensures entries == es
    {
      entries := es;
    }

    /** `addFile(name, data)`: create the entry, or replace its data. */
    method AddFile(name: string, data: Bytes)
      modifies this
      ensures entries == Put(old(entries), name, data)
    {
      entries := Put(entries, name, data);
    }

    /** `updateFile(name, data)`: replace the data of an existing entry;
        nothing happens when there is no such entry. */
    method UpdateFile(name: string, data: Bytes)
      modifies this
      ensures name in Names(old(entries)) ==> entries == Put(old(entries), name, data)
      ensures name !in Names(old(entries)) ==> entries == old(entries)
    {
      if name in Names(entries) {
        entries := Put(entries, name, data);
      }
    }
  }
}
