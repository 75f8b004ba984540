/** The spool as files on disk: their names are strings and their contents text. What SpoolDirectory
    says of numbered bodies holds of them. */
module SpoolFiles {
  import opened Measurements
  import opened SpoolDirectory
  import opened SpoolQueue
  import opened SpoolText
  import opened TextLines
  import opened Wrappers

  /** A file by the stamp in its name: the random tag in the name, and its text. */
  datatype File = File(tag: string, text: string)

  type Disk = map<nat, File>

  function NameAt(disk: Disk, stamp: nat): string
    requires stamp in disk
  {
    Name(stamp, disk[stamp].tag)
  }

  function ReadBack(codec: Codec<Measurement>, text: string): Result<seq<Measurement>, nat> {
    Decoded(codec, Lines(text, SpoolText.BREAKS))
  }

  /** The bodies are what the texts read as: a file is readable if and only if its text decodes, and then
      its batch is what it decodes to. */
  ghost predicate Represents(codec: Codec<Measurement>, disk: Disk, entries: Entries) {
    && disk.Keys == entries.Keys
    && forall k | k in disk ::
         && (entries[k].readable <==> ReadBack(codec, disk[k].text).Ok?)
         && (entries[k].readable ==> entries[k].batch == ReadBack(codec, disk[k].text).value)
  }

  ghost predicate Dated(disk: Disk) {
    forall k | k in disk :: k < 100000000000000000000
  }

  // ---- the order of names is the order of the listing ------------------------------------------------

  /** The stamps of all files, in the order in which `sorted` puts their names. */
  ghost predicate SortedByName(order: seq<nat>, disk: Disk) {
    && (forall k :: k in order <==> k in disk)
    && (forall i, j | 0 <= i < j < |order| :: Less(NameAt(disk, order[i]), NameAt(disk, order[j])))
  }

  lemma {:induction false} LessIsIrreflexive(a: string)
    ensures !Less(a, a)
  {
    if a != "" {
      LessIsIrreflexive(a[1..]);
    }
  }

  lemma NamesOrder(disk: Disk, m: nat, n: nat)
    requires Dated(disk) && m in disk && n in disk
    ensures Less(NameAt(disk, m), NameAt(disk, n)) <==> m < n
  {
    hide Less, Name;
    if m == n {
      LessIsIrreflexive(NameAt(disk, m));
    } else {
      NamesSortByStamp(m, n, disk[m].tag, disk[n].tag);
    }
  }

  /** Sorting the names lists the files by stamp: there is one such order, and it is the listing of the
      directory. */
  lemma ListingIsByName(order: seq<nat>, disk: Disk, entries: Entries)
    requires Dated(disk) && disk.Keys == entries.Keys
    ensures SortedByName(order, disk) <==> order == NamesOf(Listing(entries))
  {
    hide Listing, Less, Name, Pow10, NameAt;
    ListingLists(entries);
    var q := Listing(entries);
    if SortedByName(order, disk) {
      forall i, j | 0 <= i < j < |order| ensures order[i] < order[j] {
        assert order[i] in disk && order[j] in disk;
        NamesOrder(disk, order[i], order[j]);
      }
      StampsList(order, entries);
      ListingIsUnique(FilesAt(order, entries), q, entries);
    }
    if order == NamesOf(q) {
      forall k ensures k in order <==> k in disk {
        if k in disk {
          assert FileAt(entries, k) in q;
          var i :| 0 <= i < |q| && q[i] == FileAt(entries, k);
          assert order[i] == k;
        }
        if k in order {
          var i :| 0 <= i < |order| && order[i] == k;
          assert q[i] in q;
        }
      }
      forall i, j | 0 <= i < j < |order| ensures Less(NameAt(disk, order[i]), NameAt(disk, order[j])) {
        assert order[i] in disk && order[j] in disk;
        NamesOrder(disk, order[i], order[j]);
      }
    }
  }

  ghost function FilesAt(order: seq<nat>, entries: Entries): (q: Queue)
    requires forall k | k in order :: k in entries
    ensures |q| == |order| && forall i | 0 <= i < |q| :: q[i] == FileAt(entries, order[i])
  {
    seq(|order|, i requires 0 <= i < |order| => FileAt(entries, order[i]))
  }

  lemma StampsList(order: seq<nat>, entries: Entries)
    requires forall k :: k in order <==> k in entries
    requires forall i, j | 0 <= i < j < |order| :: order[i] < order[j]
    ensures Lists(FilesAt(order, entries), entries) && NamesOf(FilesAt(order, entries)) == order
  {
    var q := FilesAt(order, entries);
    forall f ensures f in q <==> f.name in entries && f == FileAt(entries, f.name) {
      if f.name in entries && f == FileAt(entries, f.name) {
        var i :| 0 <= i < |order| && order[i] == f.name;
        assert q[i] == f;
      }
    }
  }

  // ---- writing and reading ------------------------------------------------------------------------------

  /** A batch written to a new file is a readable body with that batch. */
  lemma WritingIsReadable(codec: Codec<Measurement>, disk: Disk, entries: Entries, stamp: nat, tag: string,
                          batch: seq<Measurement>, size: nat)
    requires Represents(codec, disk, entries)
    requires batch != [] && forall i | 0 <= i < |batch| :: Survives(codec, batch[i])
    ensures Represents(codec, disk[stamp := File(tag, Payload(codec, batch))],
                       entries[stamp := Body(batch, true, size)])
  {
    hide Survives, Payload, Decoded, Lines;
    RoundTrip(codec, batch);
  }

  /** Whatever has been written over a file, it is readable if and only if every line that is not blank
      decodes. */
  lemma {:induction false} ReadableExactlyIf(codec: Codec<Measurement>, lines: seq<string>)
    ensures Decoded(codec, lines).Ok?
            <==> forall i | 0 <= i < |lines| :: Strip(lines[i]) == "" || codec.decode(Strip(lines[i])).Some?
  {
    hide Strip;
    if lines != [] {
      var n := |lines| - 1;
      ReadableExactlyIf(codec, lines[..n]);
      assert forall i | 0 <= i < n :: lines[..n][i] == lines[i];
    }
  }
}
