/** The spool itself: a directory of files, listed by sorting the names. */
module SpoolDirectory {
  import opened Measurements
  import opened SpoolQueue
  import opened Wrappers

  datatype Body = Body(batch: seq<Measurement>, readable: bool, size: nat)

  type Entries = map<nat, Body>

  function FileAt(entries: Entries, name: nat): SpoolFile
    requires name in entries
  {
    SpoolFile(name, entries[name].batch, entries[name].readable, entries[name].size)
  }

  ghost predicate IsLeast(names: set<nat>, name: nat) {
    name in names && forall other | other in names :: name <= other
  }

  lemma {:induction false} LeastExists(names: set<nat>)
    requires names != {}
    ensures exists name :: IsLeast(names, name)
    decreases names
  {
    var some :| some in names;
    if !IsLeast(names, some) {
      var other :| other in names && other < some;
      var smaller := set n | n in names && n < some;
      assert other in smaller && some !in smaller;
      LeastExists(smaller);
      var least :| IsLeast(smaller, least);
      forall n | n in names
        ensures least <= n
      {
        assert n < some ==> n in smaller;
      }
      assert IsLeast(names, least);
    }
  }

  /** The directory as a queue: its files in ascending order of name. */
  ghost function Listing(entries: Entries): Queue
    decreases entries.Keys
  {
    if entries == map[] then []
    else
      LeastExists(entries.Keys);
      var name :| IsLeast(entries.Keys, name);
      [FileAt(entries, name)] + Listing(entries - {name})
  }

  ghost predicate Lists(q: Queue, entries: Entries) {
    && InOrder(q)
    && (forall f :: f in q <==> f.name in entries && f == FileAt(entries, f.name))
  }

  lemma {:induction false} ListingLists(entries: Entries)
    ensures Lists(Listing(entries), entries)
    decreases entries.Keys
  {
    if entries != map[] {
      var q := Listing(entries);
      ListingLists(entries - {q[0].name});
      assert q == [q[0]] + q[1..];
    }
  }

  /** There is one way to list a directory in order. */
  lemma {:induction false} ListingIsUnique(p: Queue, q: Queue, entries: Entries)
    requires Lists(p, entries) && Lists(q, entries)
    ensures p == q
    decreases |p|
  {
    assert |q| > 0 ==> q[0] in p;
    if p != [] {
      assert p[0] in q;
      assert q[0] in p;
      var name := p[0].name;
      assert p[0] == q[0];
      TailLists(p, entries);
      TailLists(q, entries);
      ListingIsUnique(p[1..], q[1..], entries - {name});
      assert p == [p[0]] + p[1..] && q == [q[0]] + q[1..];
    }
  }

  lemma TailLists(q: Queue, entries: Entries)
    requires q != [] && Lists(q, entries)
    ensures Lists(q[1..], entries - {q[0].name})
  {
    assert q == [q[0]] + q[1..];
    forall f
      ensures f in q[1..] <==> f.name in entries - {q[0].name} && f == FileAt(entries - {q[0].name}, f.name)
    {
      if f in q[1..] {
        assert f in q;
      }
    }
  }

  /** A name above all others is listed last: under a clock that only goes forward the listing is
      the order of writing. */
  lemma NewestIsListedLast(entries: Entries, name: nat, body: Body)
    requires forall other | other in entries :: other < name
    ensures Listing(entries[name := body])
            == Listing(entries) + [SpoolFile(name, body.batch, body.readable, body.size)]
  {
    var after := entries[name := body];
    var q := Listing(entries) + [FileAt(after, name)];
    ListingLists(entries);
    ListingLists(after);
    assert Lists(q, after) by {
      forall f
        ensures f in q <==> f.name in after && f == FileAt(after, f.name)
      {
      }
    }
    ListingIsUnique(q, Listing(after), after);
  }

  lemma ListingAfterRemoval(entries: Entries, name: nat)
    ensures Listing(entries - {name}) == Removed(Listing(entries), name)
  {
    ListingLists(entries);
    ListingLists(entries - {name});
    RemovedContents(Listing(entries), name);
    RemoveKeepsOrder(Listing(entries), name);
    ListingIsUnique(Removed(Listing(entries), name), Listing(entries - {name}), entries - {name});
  }

  /** Removing the head leaves the tail. */
  lemma ListingWithoutHead(entries: Entries)
    requires Listing(entries) != []
    ensures Listing(entries)[0].name in entries
    ensures Listing(entries)[0] == FileAt(entries, Listing(entries)[0].name)
    ensures Listing(entries - {Listing(entries)[0].name}) == Listing(entries)[1..]
  {
    ListingLists(entries);
    TailLists(Listing(entries), entries);
    var rest := entries - {Listing(entries)[0].name};
    ListingLists(rest);
    ListingIsUnique(Listing(entries)[1..], Listing(rest), rest);
  }

  lemma LeastIsListedFirst(entries: Entries, name: nat)
    requires name in entries && forall other | other in entries.Keys :: name <= other
    ensures NamesOf(Listing(entries)) == [name] + NamesOf(Listing(entries - {name}))
  {
    ListingLists(entries);
    assert FileAt(entries, name) in Listing(entries);
    assert Listing(entries)[0] in Listing(entries);
    assert name == Listing(entries)[0].name;
    ListingWithoutHead(entries);
  }

  lemma EmptyListing()
    ensures Listing(map[]) == []
  {
  }

  ghost function NamesOf(q: Queue): seq<nat> {
    seq(|q|, i requires 0 <= i < |q| => q[i].name)
  }

  class Spool {
    var entries: Entries
    var corrupt: seq<SpoolFile>  // the files renamed to *.corrupt
    var clock: nat               // the stamp of the newest file ever written
    const maxBytes: int

    ghost predicate Valid()
      reads this
    {
      forall name | name in entries :: name <= clock
    }

    ghost function Queue(): Queue
      reads this
    {
      Listing(entries)
    }

    /** Opens a directory that may hold files of an earlier run. */
    constructor (entries: Entries, clock: nat, maxBytes: int)
      requires forall name | name in entries :: name <= clock
      ensures Valid() && this.entries == entries && this.clock == clock && this.maxBytes == maxBytes
      ensures corrupt == []
    {
      this.entries, this.corrupt, this.clock, this.maxBytes := entries, [], clock, maxBytes;
    }

    /** `sorted(directory.glob(...))` */
    method Files() returns (names: seq<nat>)
      ensures names == NamesOf(Queue())
    {
      hide Listing;
      EmptyListing();
      names := [];
      var left := entries;
      while left != map[]
        invariant NamesOf(Queue()) == names + NamesOf(Listing(left))
        decreases left.Keys
      {
        LeastExists(left.Keys);
        var name :| name in left.Keys && forall other | other in left.Keys :: name <= other;
        LeastIsListedFirst(left, name);
        names := names + [name];
        left := left - {name};
      }
    }

    method TotalSize() returns (total: nat)
      ensures total == TotalBytes(Queue())
    {
      var names := Files();
      total := 0;
      ghost var q := Queue();
      ListingLists(entries);
      for i := 0 to |names|
        invariant total + TotalBytes(q[i..]) == TotalBytes(q)
      {
        assert q[i] in q;
        assert q[i..][1..] == q[i + 1..];
        total := total + entries[names[i]].size;
      }
    }

    /** Drops the oldest files until the rest fits, but never the newest. */
    method EnforceLimit() returns (dropped: nat)
      requires Valid()
      modifies `entries
      ensures Valid()
      ensures Queue() == WithinLimit(old(Queue()), maxBytes)
      ensures dropped == |Evicted(old(Queue()), maxBytes)|
    {
      dropped := 0;
      var total := TotalSize();
      if total <= maxBytes {
        return;
      }
      var names := Files();
      ghost var q := Queue();
      var i := 0;
      while i < |names| - 1
        invariant i <= |q| && (q != [] ==> i < |q|)
        invariant Valid() && Queue() == q[i..] && total == TotalBytes(q[i..]) && dropped == i
        invariant WithinLimit(q, maxBytes) == WithinLimit(q[i..], maxBytes)
        invariant |Evicted(q, maxBytes)| == i + |Evicted(q[i..], maxBytes)|
      {
        if total <= maxBytes {
          break;
        }
        ListingWithoutHead(entries);
        assert q[i..][1..] == q[i + 1..];
        total := total - entries[names[i]].size;
        entries := entries - {names[i]};
        dropped := dropped + 1;
        i := i + 1;
      }
    }

    /** Persists a batch under the next time stamp; `writes` is false when the file system
        refuses, and `size` is the number of bytes the batch takes. */
    method Append(batch: seq<Measurement>, writes: bool, size: nat) returns (name: Option<nat>)
      requires Valid()
      modifies `entries, `clock
      ensures Valid()
      ensures Directory(Queue(), clock)
              == Perform(old(Directory(Queue(), clock)), SpoolQueue.Append(batch, writes, size), maxBytes)
      ensures name == if batch == [] || !writes then None else Some(clock)
    {
      if batch == [] {
        return None;
      }
      clock := clock + 1;
      if !writes {
        return None;
      }
      NewestIsListedLast(entries, clock, Body(batch, true, size));
      entries := entries[clock := Body(batch, true, size)];
      var dropped := EnforceLimit();
      return Some(clock);
    }

    /** The oldest batch that can be delivered. Unreadable files before it are renamed away,
        empty ones deleted. */
    method PeekOldest() returns (entry: Option<(nat, seq<Measurement>)>)
      requires Valid()
      modifies `entries, `corrupt
      ensures Valid()
      ensures Queue() == Peeked(old(Queue()))
      ensures entry == Head(Queue())
      ensures corrupt == old(corrupt) + Quarantined(old(Queue()))
    {
      hide Listing;
      var names := Files();
      ghost var q := Queue();
      var i := 0;
      while i < |names|
        invariant i <= |q| && Valid() && Queue() == q[i..]
        invariant Peeked(q) == Peeked(q[i..])
        invariant corrupt + Quarantined(q[i..]) == old(corrupt) + Quarantined(q)
      {
        ListingWithoutHead(entries);
        assert q[i..][1..] == q[i + 1..];
        var body := entries[names[i]];
        if body.readable && body.batch != [] {
          assert Quarantined(q[i..]) == [];
          return Some((names[i], body.batch));
        }
        if !body.readable {
          assert q[i] == SpoolFile(names[i], body.batch, body.readable, body.size);
          assert Quarantined(q[i..]) == [q[i]] + Quarantined(q[i + 1..]);
          corrupt := corrupt + [SpoolFile(names[i], body.batch, body.readable, body.size)];
        }
        entries := entries - {names[i]};
        i := i + 1;
      }
      entry := None;
    }

    /** `unlink(missing_ok=True)` */
    method Remove(name: nat)
      requires Valid()
      modifies `entries
      ensures Valid() && Queue() == Removed(old(Queue()), name)
    {
      ListingAfterRemoval(entries, name);
      entries := entries - {name};
    }
  }
}
