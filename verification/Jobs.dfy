/** How the configured targets are turned into jobs.

  The options of a target stand for their canonical text, the one written into the grouping
  signature. A probe class is known by what it does with such options: whether it accepts them
  and which batch limit it reads from them.
 */
module Jobs {
  import opened Wrappers

  datatype Target = Target(key: string, host: string, probe: string, interval: real, options: string, enabled: bool)

  /** The batch limit among the options: missing, zero or empty, a number, or nothing int() converts. */
  datatype Limit = Unset | Limit(size: int) | NotANumber

  datatype ProbeClass = ProbeClass(supportsBatch: bool, accepts: string -> bool, maxBatch: string -> Limit)

  datatype Signature = Signature(probe: string, interval: real, options: string)

  datatype Job = Job(probe: string, options: string, targets: seq<Target>, interval: real, batched: bool)

  datatype Failure =
    | UnknownProbe(probe: string)
    | Rejected(probe: string, options: string)
    | BadLimit(probe: string, options: string)
    | EmptyChunk(probe: string, options: string)

  type Registry = map<string, ProbeClass>

  const DEFAULT_MAX_BATCH := 200

  // ---- filters -------------------------------------------------------------------------

  function Kept<T>(s: seq<T>, keep: T -> bool): (r: seq<T>)
    ensures forall x | x in r :: x in s && keep(x)
    ensures forall x | x in s && keep(x) :: x in r
  {
    if s == [] then []
    else
      var init, last := s[..|s| - 1], s[|s| - 1];
      assert s == init + [last];
      Kept(init, keep) + if keep(last) then [last] else []
  }

  lemma {:induction false} KeptOfConcat<T>(a: seq<T>, b: seq<T>, keep: T -> bool)
    ensures Kept(a + b, keep) == Kept(a, keep) + Kept(b, keep)
  {
    if b == [] {
      assert a + b == a;
    } else {
      var init, last := b[..|b| - 1], b[|b| - 1];
      assert (a + b)[..|a + b| - 1] == a + init && (a + b)[|a + b| - 1] == last;
      KeptOfConcat(a, init, keep);
    }
  }

  lemma KeptOfPrefix<T>(s: seq<T>, i: nat, keep: T -> bool)
    requires i < |s|
    ensures Kept(s[..i + 1], keep) == Kept(s[..i], keep) + if keep(s[i]) then [s[i]] else []
  {
    assert s[..i + 1][..i] == s[..i];
  }

  lemma {:induction false} KeptAllOrNone<T>(s: seq<T>, keep: T -> bool)
    ensures (forall x | x in s :: keep(x)) ==> Kept(s, keep) == s
    ensures (forall x | x in s :: !keep(x)) ==> Kept(s, keep) == []
  {
    if s != [] {
      var init, last := s[..|s| - 1], s[|s| - 1];
      assert s == init + [last];
      KeptAllOrNone(init, keep);
    }
  }

  function Enabled(targets: seq<Target>): seq<Target> {
    Kept(targets, (t: Target) => t.enabled)
  }

  function SignatureOf(t: Target): Signature {
    Signature(t.probe, t.interval, t.options)
  }

  /** The targets with one signature, in their configured order. */
  function Of(targets: seq<Target>, s: Signature): seq<Target> {
    Kept(targets, (t: Target) => SignatureOf(t) == s)
  }

  predicate Groups(probe: string, registry: Registry, batching: bool) {
    batching && probe in registry && registry[probe].supportsBatch
  }

  function Groupable(targets: seq<Target>, registry: Registry, batching: bool): seq<Target> {
    Kept(targets, (t: Target) => Groups(t.probe, registry, batching))
  }

  function Singles(targets: seq<Target>, registry: Registry, batching: bool): seq<Target> {
    Kept(targets, (t: Target) => !Groups(t.probe, registry, batching))
  }

  /** The signatures that occur, in the order of their first target. */
  function Signatures(targets: seq<Target>): (r: seq<Signature>)
    ensures forall s :: s in r <==> exists t :: t in targets && SignatureOf(t) == s
    ensures forall i, j | 0 <= i < j < |r| :: r[i] != r[j]
  {
    if targets == [] then []
    else
      var init, last := targets[..|targets| - 1], targets[|targets| - 1];
      assert targets == init + [last];
      var before, s := Signatures(init), SignatureOf(last);
      if s in before then before else before + [s]
  }

  // ---- chunks -----------------------------------------------------------------------------

  /** items[start:stop] for 0 <= start: a negative stop counts from the end. */
  function Slice<T>(items: seq<T>, start: nat, stop: int): seq<T> {
    var n := |items|;
    var last := if stop < 0 then (if stop + n < 0 then 0 else stop + n) else if stop > n then n else stop;
    if start < last then items[start..last] else []
  }

  /** The chunks from an offset on. */
  function ChunksFrom<T>(items: seq<T>, size: int, offset: nat): seq<seq<T>>
    decreases |items| - offset
  {
    if offset >= |items| then []
    else [Slice(items, offset, offset + size)] + ChunksFrom(items, size, offset + if size >= 1 then size else 1)
  }

  function Chunks<T>(items: seq<T>, size: int): seq<seq<T>> {
    ChunksFrom(items, size, 0)
  }

  function Joined<T>(parts: seq<seq<T>>): seq<T> {
    if parts == [] then [] else parts[0] + Joined(parts[1..])
  }

  lemma {:induction false} ChunksFromPartition<T>(items: seq<T>, size: int, offset: nat)
    requires size >= 1 && offset <= |items|
    ensures var chunks := ChunksFrom(items, size, offset);
            && Joined(chunks) == items[offset..]
            && (forall k | 0 <= k < |chunks| :: 1 <= |chunks[k]| <= size)
            && (forall k | 0 <= k < |chunks| - 1 :: |chunks[k]| == size)
    decreases |items| - offset
  {
    var chunks := ChunksFrom(items, size, offset);
    if offset < |items| {
      if offset + size <= |items| {
        ChunksFromPartition(items, size, offset + size);
        assert chunks[1..] == ChunksFrom(items, size, offset + size);
        assert items[offset..] == items[offset..offset + size] + items[offset + size..];
      } else {
        assert ChunksFrom(items, size, offset + size) == [];
        assert Slice(items, offset, offset + size) == items[offset..];
        assert items[offset..] == items[offset..|items|];
      }
    }
  }

  lemma {:induction false} LastChunkIsEmpty<T>(items: seq<T>, size: int, offset: nat)
    requires size < 1 && offset < |items|
    ensures [] in ChunksFrom(items, size, offset)
    decreases |items| - offset
  {
    var rest := ChunksFrom(items, size, offset + 1);
    assert ChunksFrom(items, size, offset) == [Slice(items, offset, offset + size)] + rest;
    if offset + 1 < |items| {
      LastChunkIsEmpty(items, size, offset + 1);
    } else {
      assert Slice(items, offset, offset + size) == [];
    }
  }

  /** Chunks cut a list into full pieces and a remainder for every size from 1 on, and for no other
      size are they all non-empty. */
  lemma ChunksPartition<T>(items: seq<T>, size: int)
    requires items != []
    ensures (forall c | c in Chunks(items, size) :: c != []) <==> size >= 1
    ensures size >= 1 ==>
              var chunks := Chunks(items, size);
              && Joined(chunks) == items
              && (forall k | 0 <= k < |chunks| :: 1 <= |chunks[k]| <= size)
              && (forall k | 0 <= k < |chunks| - 1 :: |chunks[k]| == size)
  {
    if size >= 1 {
      ChunksFromPartition(items, size, 0);
      assert items[0..] == items;
    } else {
      LastChunkIsEmpty(items, size, 0);
      var empty: seq<T> := [];
      assert empty in Chunks(items, size);
    }
  }

  // ---- the plan ---------------------------------------------------------------------------

  function LimitOf(probe: string, options: string, registry: Registry): Limit {
    if probe in registry then registry[probe].maxBatch(options) else Unset
  }

  /** The size of the chunks; a limit that is not a number makes none. */
  function ChunkSize(probe: string, options: string, registry: Registry): int {
    match LimitOf(probe, options, registry)
    case Unset => DEFAULT_MAX_BATCH
    case Limit(size) => size
    case NotANumber => 0
  }

  function BatchJob(s: Signature, chunk: seq<Target>): Job {
    Job(s.probe, s.options, chunk, s.interval, |chunk| > 1)
  }

  function SingleJob(t: Target): Job {
    Job(t.probe, t.options, [t], t.interval, false)
  }

  /** One job for each chunk. */
  function BatchJobs(s: Signature, chunks: seq<seq<Target>>): (r: seq<Job>)
    ensures |r| == |chunks| && forall k | 0 <= k < |r| :: r[k] == BatchJob(s, chunks[k])
  {
    seq(|chunks|, k requires 0 <= k < |chunks| => BatchJob(s, chunks[k]))
  }

  function GroupJobs(targets: seq<Target>, s: Signature, registry: Registry): seq<Job> {
    BatchJobs(s, Chunks(Of(targets, s), ChunkSize(s.probe, s.options, registry)))
  }

  function AllGroupJobs(targets: seq<Target>, sigs: seq<Signature>, registry: Registry): seq<Job> {
    if sigs == [] then []
    else AllGroupJobs(targets, sigs[..|sigs| - 1], registry) + GroupJobs(targets, sigs[|sigs| - 1], registry)
  }

  function SingleJobs(targets: seq<Target>): (r: seq<Job>)
    ensures |r| == |targets| && forall k | 0 <= k < |r| :: r[k] == SingleJob(targets[k])
  {
    seq(|targets|, k requires 0 <= k < |targets| => SingleJob(targets[k]))
  }

  /** The jobs for the enabled targets: the groups in the order of their first target, then the
      targets on their own. */
  function Plan(enabled: seq<Target>, registry: Registry, batching: bool): seq<Job> {
    var grouped := Groupable(enabled, registry, batching);
    AllGroupJobs(grouped, Signatures(grouped), registry) + SingleJobs(Singles(enabled, registry, batching))
  }

  /** What the configuration of one target has to satisfy. */
  predicate Buildable(t: Target, registry: Registry, batching: bool) {
    && t.probe in registry
    && registry[t.probe].accepts(t.options)
    && (Groups(t.probe, registry, batching) ==> ChunkSize(t.probe, t.options, registry) >= 1)
  }

  /** The failure is this target's. */
  predicate Blames(e: Failure, t: Target, registry: Registry, batching: bool) {
    match e
    case UnknownProbe(probe) => t.probe == probe && probe !in registry
    case Rejected(probe, options) =>
      t.probe == probe && t.options == options && probe in registry && !registry[probe].accepts(options)
    case BadLimit(probe, options) =>
      && t.probe == probe && t.options == options && Groups(probe, registry, batching)
      && LimitOf(probe, options, registry).NotANumber?
    case EmptyChunk(probe, options) =>
      && t.probe == probe && t.options == options && Groups(probe, registry, batching)
      && LimitOf(probe, options, registry).Limit? && LimitOf(probe, options, registry).size < 1
  }

  predicate AllBuildable(targets: seq<Target>, registry: Registry, batching: bool) {
    forall t | t in targets :: Buildable(t, registry, batching)
  }

  /** The jobs of one group, once its options have passed. */
  method BuildGroup(s: Signature, group: seq<Target>, size: int) returns (r: Option<seq<Job>>)
    requires group != [] && forall t | t in group :: SignatureOf(t) == s
    ensures r == if size >= 1 then Some(BatchJobs(s, Chunks(group, size))) else None
  {
    ChunksPartition(group, size);
    var chunks := Chunks(group, size);
    var jobs := [];
    for k := 0 to |chunks|
      invariant jobs == BatchJobs(s, chunks)[..k]
      invariant forall j | 0 <= j < k :: chunks[j] != []
    {
      if chunks[k] == [] {
        assert chunks[k] in chunks;
        return None;
      }
      jobs := jobs + [Job(s.probe, s.options, chunks[k], s.interval, |chunks[k]| > 1)];
    }
    assert forall c | c in chunks :: c != [];
    assert jobs == BatchJobs(s, chunks);
    r := Some(jobs);
  }

  /** The first loop of build_jobs: one list for each signature, and the targets on their own. */
  method Collect(enabled: seq<Target>, registry: Registry, batching: bool)
    returns (r: Result<(seq<Signature>, map<Signature, seq<Target>>, seq<Target>), Failure>)
    ensures r.Ok? <==> forall t | t in enabled :: t.probe in registry
    ensures r.Ok? ==> var (keys, members, singles) := r.value;
                      && keys == Signatures(Groupable(enabled, registry, batching))
                      && Collected(keys, members, Groupable(enabled, registry, batching))
                      && singles == Singles(enabled, registry, batching)
    ensures r.Err? ==> exists t :: t in enabled && Blames(r.error, t, registry, batching)
  {
    hide Groupable, Singles, Signatures, Of;
    var keys: seq<Signature>, members: map<Signature, seq<Target>>, singles: seq<Target> := [], map[], [];
    NothingCollected(registry, batching);
    assert enabled[..0] == [];
    for i := 0 to |enabled|
      invariant keys == Signatures(Groupable(enabled[..i], registry, batching))
      invariant Collected(keys, members, Groupable(enabled[..i], registry, batching))
      invariant singles == Singles(enabled[..i], registry, batching)
      invariant forall j | 0 <= j < i :: enabled[j].probe in registry
    {
      var t := enabled[i];
      assert t in enabled;
      if t.probe !in registry {
        assert Blames(UnknownProbe(t.probe), t, registry, batching);
        return Err(UnknownProbe(t.probe));
      }
      NextTarget(enabled, i, registry, batching);
      if batching && registry[t.probe].supportsBatch {
        ghost var before := Groupable(enabled[..i], registry, batching);
        NextMember(before, t);
        assert Groupable(enabled[..i + 1], registry, batching) == before + [t];
        var s := SignatureOf(t);
        if s !in members {
          keys, members := keys + [s], members[s := []];
        }
        members := members[s := members[s] + [t]];
      } else {
        singles := singles + [t];
        assert Groupable(enabled[..i + 1], registry, batching) == Groupable(enabled[..i], registry, batching);
      }
    }
    assert enabled[..|enabled|] == enabled;
    r := Ok((keys, members, singles));
  }

  ghost predicate Collected(keys: seq<Signature>, members: map<Signature, seq<Target>>, grouped: seq<Target>) {
    && (forall s :: s in members <==> s in keys)
    && (forall s | s in members :: members[s] == Of(grouped, s))
  }

  lemma NothingCollected(registry: Registry, batching: bool)
    ensures Groupable([], registry, batching) == [] && Singles([], registry, batching) == []
    ensures Signatures([]) == []
  {
  }

  lemma NextTarget(enabled: seq<Target>, i: nat, registry: Registry, batching: bool)
    requires i < |enabled|
    ensures var t := enabled[i];
            var yes := Groups(t.probe, registry, batching);
            && Groupable(enabled[..i + 1], registry, batching)
               == Groupable(enabled[..i], registry, batching) + (if yes then [t] else [])
            && Singles(enabled[..i + 1], registry, batching)
               == Singles(enabled[..i], registry, batching) + (if yes then [] else [t])
  {
    KeptOfPrefix(enabled, i, (t: Target) => Groups(t.probe, registry, batching));
    KeptOfPrefix(enabled, i, (t: Target) => !Groups(t.probe, registry, batching));
  }

  predicate Passes(s: Signature, registry: Registry) {
    && s.probe in registry && registry[s.probe].accepts(s.options)
    && ChunkSize(s.probe, s.options, registry) >= 1
  }

  lemma PassingGroups(grouped: seq<Target>, registry: Registry, batching: bool)
    requires forall s | s in Signatures(grouped) :: Passes(s, registry)
    ensures AllBuildable(grouped, registry, batching)
  {
    hide Signatures;
    forall t | t in grouped ensures Buildable(t, registry, batching) {
      assert SignatureOf(t) in Signatures(grouped);
    }
  }

  lemma NextGroup(grouped: seq<Target>, keys: seq<Signature>, k: nat, registry: Registry)
    requires k < |keys|
    ensures AllGroupJobs(grouped, keys[..k + 1], registry)
            == AllGroupJobs(grouped, keys[..k], registry) + GroupJobs(grouped, keys[k], registry)
  {
    assert keys[..k + 1][..k] == keys[..k];
  }

  /** The second loop: validate the options of each group once and cut it into chunks. */
  method BuildGroups(keys: seq<Signature>, members: map<Signature, seq<Target>>, ghost grouped: seq<Target>,
                     registry: Registry, ghost batching: bool)
    returns (r: Result<seq<Job>, Failure>)
    requires keys == Signatures(grouped) && Collected(keys, members, grouped)
    requires forall t | t in grouped :: Groups(t.probe, registry, batching)
    ensures r.Ok? <==> AllBuildable(grouped, registry, batching)
    ensures r.Ok? ==> r.value == AllGroupJobs(grouped, keys, registry)
    ensures r.Err? ==> exists t :: t in grouped && Blames(r.error, t, registry, batching)
  {
    hide Of, ChunkSize, Chunks, BatchJobs, Signatures, AllGroupJobs, LimitOf;
    var jobs: seq<Job> := [];
    NoGroups(grouped, registry);
    assert keys[..0] == [];
    for k := 0 to |keys|
      invariant jobs == AllGroupJobs(grouped, keys[..k], registry)
      invariant forall j | 0 <= j < k :: Passes(keys[j], registry)
    {
      var s := keys[k];
      LeaderOf(grouped, s);
      var group := members[s];
      var leader := group[0];
      assert leader in group;
      if !registry[s.probe].accepts(s.options) {
        assert Blames(Rejected(s.probe, s.options), leader, registry, batching);
        return Err(Rejected(s.probe, s.options));
      }
      NumberIsSize(s, registry);
      if LimitOf(s.probe, s.options, registry).NotANumber? {
        assert Blames(BadLimit(s.probe, s.options), leader, registry, batching);
        return Err(BadLimit(s.probe, s.options));
      }
      var built := BuildGroup(s, group, ChunkSize(s.probe, s.options, registry));
      if built == None {
        assert Blames(EmptyChunk(s.probe, s.options), leader, registry, batching);
        return Err(EmptyChunk(s.probe, s.options));
      }
      NextGroup(grouped, keys, k, registry);
      jobs := jobs + built.value;
    }
    assert keys[..|keys|] == keys;
    PassingGroups(grouped, registry, batching);
    r := Ok(jobs);
  }

  lemma NumberIsSize(s: Signature, registry: Registry)
    ensures match LimitOf(s.probe, s.options, registry)
            case Limit(size) => ChunkSize(s.probe, s.options, registry) == size
            case Unset => ChunkSize(s.probe, s.options, registry) >= 1
            case NotANumber => ChunkSize(s.probe, s.options, registry) < 1
  {
  }

  lemma NoGroups(grouped: seq<Target>, registry: Registry)
    ensures AllGroupJobs(grouped, [], registry) == []
  {
  }

  /** The third loop: one job for each target on its own. */
  method BuildSingles(singles: seq<Target>, registry: Registry, ghost batching: bool)
    returns (r: Result<seq<Job>, Failure>)
    requires forall t | t in singles :: t.probe in registry && !Groups(t.probe, registry, batching)
    ensures r.Ok? <==> AllBuildable(singles, registry, batching)
    ensures r.Ok? ==> r.value == SingleJobs(singles)
    ensures r.Err? ==> exists t :: t in singles && Blames(r.error, t, registry, batching)
  {
    var jobs: seq<Job> := [];
    for k := 0 to |singles|
      invariant jobs == SingleJobs(singles)[..k]
      invariant forall j | 0 <= j < k :: Buildable(singles[j], registry, batching)
    {
      var t := singles[k];
      assert t in singles;
      if !registry[t.probe].accepts(t.options) {
        assert Blames(Rejected(t.probe, t.options), t, registry, batching);
        return Err(Rejected(t.probe, t.options));
      }
      jobs := jobs + [Job(t.probe, t.options, [t], t.interval, false)];
    }
    r := Ok(jobs);
  }

  /** What a target needs for its jobs to be built: a known probe that accepts its options, and where it is
      batched a limit that is a number of at least 1, or none. */
  lemma BuildableExactlyIf(t: Target, registry: Registry, batching: bool)
    ensures Buildable(t, registry, batching)
            <==> t.probe in registry
                 && var probe := registry[t.probe];
                    probe.accepts(t.options)
                    && (batching && probe.supportsBatch ==>
                          probe.maxBatch(t.options) == Unset
                          || (probe.maxBatch(t.options).Limit? && probe.maxBatch(t.options).size >= 1))
  {
  }

  /** build_jobs: it succeeds exactly when every enabled target is buildable, and a failure is that
      of an enabled target. */
  method BuildJobs(targets: seq<Target>, registry: Registry, batching: bool)
    returns (r: Result<seq<Job>, Failure>)
    ensures r.Ok? <==> forall t | t in targets && t.enabled :: Buildable(t, registry, batching)
    ensures r.Ok? ==> r.value == Plan(Enabled(targets), registry, batching)
    ensures r.Err? ==> exists t :: t in targets && t.enabled && Blames(r.error, t, registry, batching)
  {
    hide Buildable, Signatures, AllGroupJobs, SingleJobs;
    var enabled := Enabled(targets);
    assert forall t :: t in enabled <==> t in targets && t.enabled;
    var collected := Collect(enabled, registry, batching);
    if collected.Err? {
      BlamedFails(collected.error, enabled, registry, batching);
      return Err(collected.error);
    }
    var (keys, members, singles) := collected.value;
    ghost var grouped := Groupable(enabled, registry, batching);
    assert forall t :: t in enabled <==> t in grouped || t in singles;
    var groupJobs := BuildGroups(keys, members, grouped, registry, batching);
    if groupJobs.Err? {
      BlamedFails(groupJobs.error, enabled, registry, batching);
      return Err(groupJobs.error);
    }
    var singleJobs := BuildSingles(singles, registry, batching);
    if singleJobs.Err? {
      BlamedFails(singleJobs.error, enabled, registry, batching);
      return Err(singleJobs.error);
    }
    r := Ok(groupJobs.value + singleJobs.value);
  }

  lemma BlamedFails(e: Failure, targets: seq<Target>, registry: Registry, batching: bool)
    requires exists t :: t in targets && Blames(e, t, registry, batching)
    ensures !AllBuildable(targets, registry, batching)
  {
    var t :| t in targets && Blames(e, t, registry, batching);
    NumberIsSize(SignatureOf(t), registry);
    assert !Buildable(t, registry, batching);
  }

  /** setdefault(...).append(...), seen from the specification. */
  lemma NextMember(before: seq<Target>, t: Target)
    ensures Signatures(before + [t])
            == if SignatureOf(t) in Signatures(before) then Signatures(before)
               else Signatures(before) + [SignatureOf(t)]
    ensures forall s :: Of(before + [t], s) == Of(before, s) + if s == SignatureOf(t) then [t] else []
    ensures SignatureOf(t) !in Signatures(before) ==> Of(before, SignatureOf(t)) == []
  {
    assert (before + [t])[..|before|] == before;
    KeptAllOrNone(before, (u: Target) => SignatureOf(u) == SignatureOf(t));
  }

  lemma LeaderOf(grouped: seq<Target>, s: Signature)
    requires s in Signatures(grouped)
    ensures Of(grouped, s) != [] && forall t | t in Of(grouped, s) :: SignatureOf(t) == s && t in grouped
  {
    var t :| t in grouped && SignatureOf(t) == s;
    assert t in Of(grouped, s);
  }

  // ---- what the plan promises ---------------------------------------------------------------

  /** All targets of all jobs, job by job. */
  function Planned(jobs: seq<Job>): seq<Target> {
    if jobs == [] then [] else jobs[0].targets + Planned(jobs[1..])
  }

  /** The most targets a batch may have: the option, or 200. */
  ghost predicate WithinBatch(n: nat, limit: Limit) {
    match limit
    case Unset => n <= 200
    case Limit(size) => n <= size
    case NotANumber => false
  }

  ghost predicate Sound(job: Job, registry: Registry, batching: bool) {
    && job.targets != []
    && (forall t | t in job.targets ::
          t.probe == job.probe && t.options == job.options && t.interval == job.interval)
    && (job.batched <==> |job.targets| > 1)
    && job.probe in registry && registry[job.probe].accepts(job.options)
    && (job.batched ==> batching && registry[job.probe].supportsBatch
                        && WithinBatch(|job.targets|, registry[job.probe].maxBatch(job.options)))
  }

  lemma {:induction false} PlannedOfConcat(a: seq<Job>, b: seq<Job>)
    ensures Planned(a + b) == Planned(a) + Planned(b)
  {
    if a == [] {
      assert a + b == b;
    } else {
      assert (a + b)[1..] == a[1..] + b;
      PlannedOfConcat(a[1..], b);
    }
  }

  lemma {:induction false} PlannedOfBatch(s: Signature, chunks: seq<seq<Target>>)
    ensures Planned(BatchJobs(s, chunks)) == Joined(chunks)
  {
    if chunks != [] {
      assert BatchJobs(s, chunks)[1..] == BatchJobs(s, chunks[1..]);
      PlannedOfBatch(s, chunks[1..]);
    }
  }

  lemma {:induction false} PlannedOfSingles(targets: seq<Target>)
    ensures Planned(SingleJobs(targets)) == targets
  {
    if targets != [] {
      assert SingleJobs(targets)[1..] == SingleJobs(targets[1..]);
      PlannedOfSingles(targets[1..]);
    }
  }

  /** One group's targets, seen through another signature. */
  lemma OfOf(targets: seq<Target>, s: Signature, g: Signature)
    ensures Of(Of(targets, s), g) == if g == s then Of(targets, g) else []
  {
    KeptAllOrNone(Of(targets, s), (t: Target) => SignatureOf(t) == g);
  }

  lemma NonePlanned(g: Signature)
    ensures Of(Planned([]), g) == []
  {
  }

  lemma {:induction false} GroupsKeepOrder(targets: seq<Target>, sigs: seq<Signature>, registry: Registry, g: Signature)
    requires forall i, j | 0 <= i < j < |sigs| :: sigs[i] != sigs[j]
    requires forall s | s in sigs :: Of(targets, s) != [] && ChunkSize(s.probe, s.options, registry) >= 1
    ensures Of(Planned(AllGroupJobs(targets, sigs, registry)), g) == if g in sigs then Of(targets, g) else []
  {
    hide Of, ChunkSize, Chunks, BatchJobs, Planned;
    if sigs == [] {
      NonePlanned(g);
    } else {
      var init, s := sigs[..|sigs| - 1], sigs[|sigs| - 1];
      assert sigs == init + [s];
      GroupsKeepOrder(targets, init, registry, g);
      var earlier, group := AllGroupJobs(targets, init, registry), GroupJobs(targets, s, registry);
      PlannedOfConcat(earlier, group);
      var size := ChunkSize(s.probe, s.options, registry);
      PlannedOfBatch(s, Chunks(Of(targets, s), size));
      ChunksPartition(Of(targets, s), size);
      OfConcat(Planned(earlier), Planned(group), g);
      OfOf(targets, s, g);
    }
  }

  lemma OfConcat(a: seq<Target>, b: seq<Target>, g: Signature)
    ensures Of(a + b, g) == Of(a, g) + Of(b, g)
  {
    KeptOfConcat(a, b, (t: Target) => SignatureOf(t) == g);
  }

  lemma OfOne(t: Target, g: Signature)
    ensures Of([t], g) == if SignatureOf(t) == g then [t] else []
    ensures Of([], g) == []
  {
    KeptAllOrNone([t], (u: Target) => SignatureOf(u) == g);
  }

  lemma {:induction false} SplitByGrouping(targets: seq<Target>, registry: Registry, batching: bool, g: Signature)
    ensures Of(targets, g) == if Groups(g.probe, registry, batching)
                              then Of(Groupable(targets, registry, batching), g)
                              else Of(Singles(targets, registry, batching), g)
  {
    hide Of, Groupable, Singles, Groups;
    NothingCollected(registry, batching);
    if targets == [] {
    } else {
      var n := |targets| - 1;
      var init, t := targets[..n], targets[n];
      assert targets == init + [t] == targets[..n + 1];
      SplitByGrouping(init, registry, batching, g);
      NextTarget(targets, n, registry, batching);
      OfConcat(init, [t], g);
      OfConcat(Groupable(init, registry, batching), [t], g);
      OfConcat(Singles(init, registry, batching), [t], g);
      OfConcat(Groupable(init, registry, batching), [], g);
      OfConcat(Singles(init, registry, batching), [], g);
      OfOne(t, g);
    }
  }

  /** Targets that agree on probe, interval and options come out of the plan in their configured
      order: none is lost, none is repeated. */
  lemma PlanKeepsOrder(enabled: seq<Target>, registry: Registry, batching: bool, g: Signature)
    requires AllBuildable(enabled, registry, batching)
    ensures Of(Planned(Plan(enabled, registry, batching)), g) == Of(enabled, g)
  {
    var grouped, singles := Groupable(enabled, registry, batching), Singles(enabled, registry, batching);
    var sigs := Signatures(grouped);
    forall s | s in sigs ensures Of(grouped, s) != [] && ChunkSize(s.probe, s.options, registry) >= 1 {
      LeaderOf(grouped, s);
      assert Buildable(Of(grouped, s)[0], registry, batching);
    }
    GroupsKeepOrder(grouped, sigs, registry, g);
    PlannedOfConcat(AllGroupJobs(grouped, sigs, registry), SingleJobs(singles));
    PlannedOfSingles(singles);
    KeptOfConcat(Planned(AllGroupJobs(grouped, sigs, registry)), singles, (t: Target) => SignatureOf(t) == g);
    SplitByGrouping(enabled, registry, batching, g);
    KeptAllOrNone(grouped, (t: Target) => SignatureOf(t) == g);
    KeptAllOrNone(singles, (t: Target) => SignatureOf(t) == g);
  }

  lemma {:induction false} CountedInGroup(targets: seq<Target>, t: Target)
    ensures multiset(targets)[t] == multiset(Of(targets, SignatureOf(t)))[t]
  {
    if targets != [] {
      var init, last := targets[..|targets| - 1], targets[|targets| - 1];
      assert targets == init + [last];
      CountedInGroup(init, t);
    }
  }

  /** Each enabled target is in exactly one job, as often as it is configured. */
  lemma PlanIsAPartition(enabled: seq<Target>, registry: Registry, batching: bool)
    requires AllBuildable(enabled, registry, batching)
    ensures multiset(Planned(Plan(enabled, registry, batching))) == multiset(enabled)
  {
    var planned := Planned(Plan(enabled, registry, batching));
    forall t: Target ensures multiset(planned)[t] == multiset(enabled)[t] {
      CountedInGroup(planned, t);
      CountedInGroup(enabled, t);
      PlanKeepsOrder(enabled, registry, batching, SignatureOf(t));
    }
  }

  lemma GroupJobsAreSound(grouped: seq<Target>, s: Signature, registry: Registry, batching: bool)
    requires s in Signatures(grouped) && AllBuildable(grouped, registry, batching)
    requires Groups(s.probe, registry, batching)
    ensures forall job | job in GroupJobs(grouped, s, registry) :: Sound(job, registry, batching)
  {
    LeaderOf(grouped, s);
    var group, size := Of(grouped, s), ChunkSize(s.probe, s.options, registry);
    assert Buildable(group[0], registry, batching);
    ChunksPartition(group, size);
    var chunks := Chunks(group, size);
    forall k | 0 <= k < |chunks| ensures Sound(BatchJob(s, chunks[k]), registry, batching) {
      forall t | t in chunks[k] ensures SignatureOf(t) == s {
        PartOfJoined(chunks, k, t);
      }
    }
  }

  lemma {:induction false} PartOfJoined<T>(parts: seq<seq<T>>, k: nat, x: T)
    requires k < |parts| && x in parts[k]
    ensures x in Joined(parts)
  {
    if k > 0 {
      PartOfJoined(parts[1..], k - 1, x);
    }
  }

  lemma {:induction false} AllGroupJobsAreSound(grouped: seq<Target>, sigs: seq<Signature>, registry: Registry,
                                                batching: bool)
    requires AllBuildable(grouped, registry, batching)
    requires forall s | s in sigs :: s in Signatures(grouped) && Groups(s.probe, registry, batching)
    ensures forall job | job in AllGroupJobs(grouped, sigs, registry) :: Sound(job, registry, batching)
  {
    if sigs != [] {
      var init, s := sigs[..|sigs| - 1], sigs[|sigs| - 1];
      assert sigs == init + [s];
      AllGroupJobsAreSound(grouped, init, registry, batching);
      GroupJobsAreSound(grouped, s, registry, batching);
    }
  }

  /** The targets of a job agree on probe, interval and options, the options are ones the probe has
      accepted, and a batch has at most the configured number of targets. */
  lemma PlanIsSound(enabled: seq<Target>, registry: Registry, batching: bool)
    requires AllBuildable(enabled, registry, batching)
    ensures forall job | job in Plan(enabled, registry, batching) :: Sound(job, registry, batching)
  {
    var grouped, singles := Groupable(enabled, registry, batching), Singles(enabled, registry, batching);
    forall s | s in Signatures(grouped) ensures Groups(s.probe, registry, batching) {
      LeaderOf(grouped, s);
      assert Of(grouped, s)[0] in grouped;
    }
    AllGroupJobsAreSound(grouped, Signatures(grouped), registry, batching);
    forall k | 0 <= k < |singles| ensures Sound(SingleJob(singles[k]), registry, batching) {
      assert singles[k] in enabled;
    }
  }
}
