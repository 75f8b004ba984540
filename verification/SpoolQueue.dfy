/** The spool seen as what it stands for: a queue of batches, oldest first, under a byte cap. */
module SpoolQueue {
  import opened Measurements
  import opened Wrappers

  /** A file name is its time stamp. A file that is not `readable` fails to parse; its batch is
      what was written to it. */
  datatype SpoolFile = SpoolFile(name: nat, batch: seq<Measurement>, readable: bool, size: nat)

  type Queue = seq<SpoolFile>

  /** Strictly ascending names: the order in which files() lists a directory. */
  ghost predicate InOrder(q: Queue) {
    forall i, j | 0 <= i < j < |q| :: q[i].name < q[j].name
  }

  function TotalBytes(q: Queue): nat {
    if q == [] then 0 else q[0].size + TotalBytes(q[1..])
  }

  /** The files left by enforce_limit. */
  function WithinLimit(q: Queue, maxBytes: int): Queue {
    if TotalBytes(q) <= maxBytes || |q| <= 1 then q else WithinLimit(q[1..], maxBytes)
  }

  /** The files dropped by enforce_limit. */
  function Evicted(q: Queue, maxBytes: int): (dropped: Queue)
    ensures dropped + WithinLimit(q, maxBytes) == q
  {
    if TotalBytes(q) <= maxBytes || |q| <= 1 then [] else [q[0]] + Evicted(q[1..], maxBytes)
  }

  function Appended(q: Queue, file: SpoolFile, maxBytes: int): Queue {
    WithinLimit(q + [file], maxBytes)
  }

  /** peek_oldest throws away leading files that cannot be read or hold nothing. */
  predicate Deliverable(file: SpoolFile) {
    file.readable && file.batch != []
  }

  function Peeked(q: Queue): Queue {
    if q == [] || Deliverable(q[0]) then q else Peeked(q[1..])
  }

  function Skipped(q: Queue): (skipped: Queue)
    ensures skipped + Peeked(q) == q
  {
    if q == [] || Deliverable(q[0]) then [] else [q[0]] + Skipped(q[1..])
  }

  /** Of the files a peek throws away, the unreadable ones are kept aside. */
  function Quarantined(q: Queue): Queue {
    if q == [] || Deliverable(q[0]) then []
    else (if q[0].readable then [] else [q[0]]) + Quarantined(q[1..])
  }

  function Head(q: Queue): Option<(nat, seq<Measurement>)> {
    if q == [] then None else Some((q[0].name, q[0].batch))
  }

  function Removed(q: Queue, name: nat): Queue {
    if q == [] then []
    else if q[0].name == name then Removed(q[1..], name)
    else [q[0]] + Removed(q[1..], name)
  }

  /** Number of measurements in the files. */
  function Weight(q: Queue): nat {
    if q == [] then 0 else |q[0].batch| + Weight(q[1..])
  }

  /** The measurements in the files, file by file. */
  function Items(q: Queue): (items: seq<Measurement>)
    ensures |items| == Weight(q)
  {
    if q == [] then [] else q[0].batch + Items(q[1..])
  }

  lemma {:induction false} ItemsOfBatches(q: Queue)
    ensures Contents(Items(q)) == Batches(q)
  {
    if q != [] {
      ItemsOfBatches(q[1..]);
      assert q == [q[0]] + q[1..];
      assert Contents(q[0].batch + Items(q[1..])) == Contents(q[0].batch) + Contents(Items(q[1..]));
      forall m | m in Contents(q[0].batch) ensures m in Batches(q) {}
      forall m | m in Batches(q[1..]) ensures m in Batches(q) {
        var f :| f in q[1..] && m in f.batch;
        assert f in q;
      }
    }
  }

  function Batches(q: Queue): set<Measurement> {
    set f, m | f in q && m in f.batch :: m
  }

  /** The cap, as far as it can be kept: the newest file is never dropped. */
  ghost predicate Bounded(q: Queue, maxBytes: int) {
    TotalBytes(q) <= maxBytes || |q| <= 1
  }

  // ---- eviction --------------------------------------------------------

  /** Eviction drops a prefix, and the shortest one that does: dropping any fewer files would
      leave the queue over its cap with more than one file. */
  lemma {:induction false} EvictionIsLeast(q: Queue, maxBytes: int)
    ensures var k := |Evicted(q, maxBytes)|;
            && k <= |q|
            && WithinLimit(q, maxBytes) == q[k..]
            && Bounded(q[k..], maxBytes)
            && (q != [] ==> k < |q|)
            && forall j | 0 <= j < k :: !Bounded(q[j..], maxBytes)
  {
    if !Bounded(q, maxBytes) {
      EvictionIsLeast(q[1..], maxBytes);
      var k := |Evicted(q, maxBytes)|;
      assert q[1..][k - 1..] == q[k..];
      forall j | 0 <= j < k
        ensures !Bounded(q[j..], maxBytes)
      {
        if j == 0 {
          assert q[0..] == q;
        } else {
          assert q[1..][j - 1..] == q[j..];
        }
      }
    } else {
      assert q[0..] == q;
    }
  }

  /** Appending puts the batch at the tail, where no eviction can reach it. */
  lemma AppendGoesToTheTail(q: Queue, file: SpoolFile, maxBytes: int)
    ensures var after := Appended(q, file, maxBytes);
            && 0 < |after| <= |q| + 1 && after[|after| - 1] == file
            && after[..|after| - 1] == q[|q| + 1 - |after|..]
            && Bounded(after, maxBytes)
  {
    EvictionIsLeast(q + [file], maxBytes);
    var k := |Evicted(q + [file], maxBytes)|;
    assert (q + [file])[k..] == q[k..] + [file];
  }

  lemma SuffixInOrder(a: Queue, b: Queue)
    requires InOrder(a + b)
    ensures InOrder(b)
    ensures forall f | f in b :: f in a + b
  {
    forall i, j | 0 <= i < j < |b|
      ensures b[i].name < b[j].name
    {
      assert (a + b)[|a| + i] == b[i] && (a + b)[|a| + j] == b[j];
    }
  }

  lemma {:induction false} TotalSplits(a: Queue, b: Queue)
    ensures TotalBytes(a + b) == TotalBytes(a) + TotalBytes(b)
  {
    if a == [] {
      assert a + b == b;
    } else {
      assert (a + b)[1..] == a[1..] + b;
      TotalSplits(a[1..], b);
    }
  }

  /** The total is that of the sizes: of one file its own, of several the sum. */
  lemma TotalIsTheSum(file: SpoolFile, q: Queue)
    ensures TotalBytes([]) == 0 && TotalBytes([file]) == file.size
    ensures TotalBytes(q + [file]) == TotalBytes(q) + file.size
  {
    assert [file][1..] == [];
    TotalSplits(q, [file]);
  }

  /** What a peek does: the first file that can be read and holds something, and all behind it, stay. */
  lemma {:induction false} PeekTells(q: Queue, k: nat)
    requires k <= |q| && forall i | 0 <= i < k :: !q[i].readable || q[i].batch == []
    requires k < |q| ==> q[k].readable && q[k].batch != []
    ensures Peeked(q) == q[k..] && Skipped(q) == q[..k]
  {
    if k == 0 {
      assert q[..0] == [] && q[0..] == q;
    } else {
      var rest := q[1..];
      assert forall i | 0 <= i < |rest| :: rest[i] == q[i + 1];
      PeekTells(rest, k - 1);
      assert rest[k - 1..] == q[k..] && [q[0]] + rest[..k - 1] == q[..k];
    }
  }

  /** Of those before it the unreadable ones are kept aside. */
  lemma {:induction false} QuarantineTells(q: Queue)
    ensures forall f :: f in Quarantined(q) <==> f in Skipped(q) && !f.readable
  {
    if q != [] && !Deliverable(q[0]) {
      QuarantineTells(q[1..]);
    }
  }

  lemma {:induction false} WeightSplits(a: Queue, b: Queue)
    ensures Weight(a + b) == Weight(a) + Weight(b)
  {
    if a == [] {
      assert a + b == b;
    } else {
      assert (a + b)[1..] == a[1..] + b;
      WeightSplits(a[1..], b);
    }
  }

  // ---- removal ---------------------------------------------------------

  lemma {:induction false} RemoveAbsent(q: Queue, name: nat)
    requires forall f | f in q :: f.name != name
    ensures Removed(q, name) == q
  {
    if q != [] {
      RemoveAbsent(q[1..], name);
    }
  }

  /** In an ordered queue a removal takes out one file. */
  lemma {:induction false} RemoveTakesOne(q: Queue, i: nat)
    requires InOrder(q) && i < |q|
    ensures Removed(q, q[i].name) == q[..i] + q[i + 1..]
  {
    if i == 0 {
      RemoveAbsent(q[1..], q[0].name);
    } else {
      RemoveTakesOne(q[1..], i - 1);
      assert [q[0]] + q[1..][..i - 1] == q[..i];
      assert q[1..][i..] == q[i + 1..];
    }
  }

  lemma {:induction false} RemovedContents(q: Queue, name: nat)
    ensures forall f :: f in Removed(q, name) <==> f in q && f.name != name
  {
    if q != [] {
      RemovedContents(q[1..], name);
      assert forall f :: f in q <==> f == q[0] || f in q[1..];
    }
  }

  lemma {:induction false} RemoveKeepsOrder(q: Queue, name: nat)
    requires InOrder(q)
    ensures InOrder(Removed(q, name))
  {
    if q != [] {
      RemoveKeepsOrder(q[1..], name);
      RemovedContents(q[1..], name);
    }
  }

  lemma {:induction false} RemoveShrinks(q: Queue, name: nat)
    ensures TotalBytes(Removed(q, name)) <= TotalBytes(q)
    ensures |Removed(q, name)| <= |q|
  {
    if q != [] {
      RemoveShrinks(q[1..], name);
    }
  }

  // ---- the bound over whole runs ------------------------------------------------

  /** One operation on the spool directory. `Damage` is a file going bad on disk. */
  datatype Op = Append(batch: seq<Measurement>, writes: bool, size: nat)
              | Peek
              | Remove(name: nat)
              | Damage(at: nat)

  /** `clock` is the stamp of the newest file ever written. */
  datatype Directory = Directory(files: Queue, clock: nat)

  const EMPTY_DIRECTORY := Directory([], 0)

  function Perform(d: Directory, op: Op, maxBytes: int): Directory {
    match op
    case Append(batch, writes, size) =>
      if batch == [] then d
      else if !writes then d.(clock := d.clock + 1)
      else Directory(Appended(d.files, SpoolFile(d.clock + 1, batch, true, size), maxBytes), d.clock + 1)
    case Peek => d.(files := Peeked(d.files))
    case Remove(name) => d.(files := Removed(d.files, name))
    case Damage(at) =>
      if at < |d.files| then d.(files := d.files[at := d.files[at].(readable := false)]) else d
  }

  function PerformAll(d: Directory, ops: seq<Op>, maxBytes: int): Directory {
    if ops == [] then d else Perform(PerformAll(d, ops[..|ops| - 1], maxBytes), ops[|ops| - 1], maxBytes)
  }

  ghost predicate WellFormed(d: Directory) {
    && InOrder(d.files)
    && forall f | f in d.files :: f.name <= d.clock
  }

  lemma {:induction false} DamageKeepsSizes(q: Queue, at: nat)
    requires at < |q|
    ensures TotalBytes(q[at := q[at].(readable := false)]) == TotalBytes(q)
  {
    if at > 0 {
      assert q[at := q[at].(readable := false)][1..] == q[1..][at - 1 := q[1..][at - 1].(readable := false)];
      DamageKeepsSizes(q[1..], at - 1);
    }
  }

  lemma AppendKeepsForm(d: Directory, file: SpoolFile, maxBytes: int)
    requires WellFormed(d) && file.name == d.clock + 1
    ensures WellFormed(Directory(Appended(d.files, file, maxBytes), d.clock + 1))
    ensures Bounded(Appended(d.files, file, maxBytes), maxBytes)
  {
    AppendGoesToTheTail(d.files, file, maxBytes);
    hide Bounded;
    assert InOrder(d.files + [file]);
    SuffixInOrder(Evicted(d.files + [file], maxBytes), Appended(d.files, file, maxBytes));
  }

  lemma StepKeepsForm(d: Directory, op: Op, maxBytes: int)
    requires WellFormed(d)
    ensures WellFormed(Perform(d, op, maxBytes))
    ensures Bounded(d.files, maxBytes) ==> Bounded(Perform(d, op, maxBytes).files, maxBytes)
  {
    hide Appended, Peeked, Skipped, Removed, TotalBytes;
    match op
    case Append(batch, writes, size) =>
      AppendKeepsForm(d, SpoolFile(d.clock + 1, batch, true, size), maxBytes);
    case Peek =>
      TotalSplits(Skipped(d.files), Peeked(d.files));
      SuffixInOrder(Skipped(d.files), Peeked(d.files));
    case Remove(name) =>
      RemoveShrinks(d.files, name);
      RemoveKeepsOrder(d.files, name);
      RemovedContents(d.files, name);
    case Damage(at) =>
      if at < |d.files| {
        DamageKeepsSizes(d.files, at);
      }
  }

  /** Whatever is done to a spool that starts empty, it is listed in the order in which it was
      filled, and it is over its cap only when a single file is. */
  lemma {:induction false} EverySpoolIsBounded(ops: seq<Op>, maxBytes: int)
    ensures var d := PerformAll(EMPTY_DIRECTORY, ops, maxBytes);
            WellFormed(d) && Bounded(d.files, maxBytes)
  {
    if ops != [] {
      EverySpoolIsBounded(ops[..|ops| - 1], maxBytes);
      StepKeepsForm(PerformAll(EMPTY_DIRECTORY, ops[..|ops| - 1], maxBytes), ops[|ops| - 1], maxBytes);
    }
  }

  /** A peek finds the oldest deliverable batch, and what it threw away before it was not
      deliverable. */
  lemma {:induction false} PeekFindsTheOldest(q: Queue)
    ensures forall f | f in Skipped(q) :: !Deliverable(f)
    ensures Peeked(q) == [] <==> forall f | f in q :: !Deliverable(f)
    ensures Peeked(q) != [] ==> Deliverable(Peeked(q)[0])
  {
    if q != [] && !Deliverable(q[0]) {
      PeekFindsTheOldest(q[1..]);
      assert forall f :: f in q <==> f == q[0] || f in q[1..];
    }
  }
}
