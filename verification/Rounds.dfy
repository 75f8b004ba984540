/** From the configuration to the measurements: one cycle of every job. */
module Rounds {
  import opened Merge
  import opened Permutations
  import opened TargetList
  import opened TargetTree
  import C = Cycle
  import J = Jobs

  /** A target as the scheduler groups it. `text` writes options in their canonical form. */
  function Scheduled(spec: Spec, text: Value -> string): J.Target {
    J.Target(KeyOf(spec), spec.host, spec.probe, spec.interval, text(spec.options), spec.enabled)
  }

  function AllScheduled(specs: seq<Spec>, text: Value -> string): (r: seq<J.Target>)
    ensures |r| == |specs| && forall i | 0 <= i < |r| :: r[i] == Scheduled(specs[i], text)
  {
    seq(|specs|, i requires 0 <= i < |specs| => Scheduled(specs[i], text))
  }

  /** _to_probe_target: the name is the full key. */
  function Probed(t: J.Target): C.Target {
    C.Target(t.key, t.host)
  }

  function AllProbed(targets: seq<J.Target>): (r: seq<C.Target>)
    ensures |r| == |targets| && forall i | 0 <= i < |r| :: r[i] == Probed(targets[i])
  {
    seq(|targets|, i requires 0 <= i < |targets| => Probed(targets[i]))
  }

  function CycleJob(job: J.Job): C.Job {
    C.Job(AllProbed(job.targets), job.batched)
  }

  // ---- keys stay apart --------------------------------------------------------------------------------

  ghost predicate KeysDiffer(targets: seq<J.Target>) {
    forall i, j | 0 <= i < j < |targets| :: targets[i].key != targets[j].key
  }

  /** The targets of an accepted configuration have different keys, with their defaults as without. */
  lemma AcceptedKeysDiffer(nodes: seq<Node>, root: Inherited, defaults: map<string, Value>, text: Value -> string)
    requires Parsed(nodes, root, defaults).Ok?
    ensures KeysDiffer(AllScheduled(Parsed(nodes, root, defaults).value, text))
  {
    hide Flat, FirstRepeated, FirstBad, Overlay;
    var specs := Flat(nodes, root).value;
    RepeatedKeys(specs);
    forall i | 0 <= i < |specs| ensures KeyOf(WithDefaults(specs[i], defaults)) == KeyOf(specs[i]) {}
  }

  lemma {:induction false} KeptKeysDiffer(targets: seq<J.Target>, keep: J.Target -> bool)
    requires KeysDiffer(targets)
    ensures KeysDiffer(J.Kept(targets, keep))
  {
    if targets != [] {
      var init, last := targets[..|targets| - 1], targets[|targets| - 1];
      KeptKeysDiffer(init, keep);
      forall t | t in J.Kept(init, keep) ensures t.key != last.key {
        var i :| 0 <= i < |init| && init[i] == t;
        assert targets[i] == t;
      }
    }
  }

  lemma Twice(s: seq<J.Target>, i: nat, j: nat)
    requires i < j < |s| && s[i] == s[j]
    ensures multiset(s)[s[i]] >= 2
  {
    assert s == s[..j] + s[j..] && s[..j][i] == s[i] && s[j..][0] == s[j];
    assert s[i] in s[..j] && s[i] in s[j..];
  }

  lemma OnceWhereKeysDiffer(s: seq<J.Target>, t: J.Target)
    requires KeysDiffer(s)
    ensures multiset(s)[t] <= 1
  {
    if t in s {
      var i :| 0 <= i < |s| && s[i] == t;
      var before, after := s[..i], s[i + 1..];
      assert s == before + [t] + after;
      assert t !in before && t !in after;
    }
  }

  /** Keys differ in every arrangement of the same targets. */
  lemma ArrangedKeysDiffer(a: seq<J.Target>, b: seq<J.Target>)
    requires KeysDiffer(a) && multiset(a) == multiset(b)
    ensures KeysDiffer(b)
  {
    forall i, j | 0 <= i < j < |b| ensures b[i].key != b[j].key {
      assert b[i] in multiset(a) && b[j] in multiset(a);
      if b[i].key == b[j].key {
        var k :| 0 <= k < |a| && a[k] == b[i];
        var l :| 0 <= l < |a| && a[l] == b[j];
        assert k == l;
        Twice(b, i, j);
        OnceWhereKeysDiffer(a, b[i]);
        assert false;
      }
    }
  }

  lemma {:induction false} JobKeysDiffer(jobs: seq<J.Job>, job: J.Job)
    requires job in jobs && KeysDiffer(J.Planned(jobs))
    ensures C.Unique(AllProbed(job.targets))
  {
    var first, rest := jobs[0].targets, J.Planned(jobs[1..]);
    var all := J.Planned(jobs);
    assert all == first + rest;
    if job == jobs[0] {
      assert all[..|first|] == job.targets;
    } else {
      assert forall i | 0 <= i < |rest| :: rest[i] == all[|first| + i];
      JobKeysDiffer(jobs[1..], job);
    }
  }

  // ---- one cycle of every job ------------------------------------------------------------------------

  /** One cycle of a job: what its probe met, how long it took, and when it began. */
  datatype Turn = Turn(job: J.Job, probe: C.Probe, elapsedMs: real, ts: int)

  predicate Fit(turn: Turn) {
    C.Fits(turn.probe, AllProbed(turn.job.targets))
  }

  function Submitted(turn: Turn): seq<C.Measurement>
    requires Fit(turn)
  {
    C.Cycled(CycleJob(turn.job), turn.probe, turn.elapsedMs, turn.ts)
  }

  function JobsOf(turns: seq<Turn>): seq<J.Job> {
    if turns == [] then [] else [turns[0].job] + JobsOf(turns[1..])
  }

  /** What the cycles submit, in the order in which they end. */
  function Round(turns: seq<Turn>): seq<C.Measurement>
    requires forall turn | turn in turns :: Fit(turn)
  {
    if turns == [] then [] else Submitted(turns[0]) + Round(turns[1..])
  }

  lemma {:induction false} PlannedInAnyOrder(a: seq<J.Job>, b: seq<J.Job>)
    requires multiset(a) == multiset(b)
    ensures multiset(J.Planned(a)) == multiset(J.Planned(b))
  {
    if a == [] {
      assert |multiset(b)| == 0;
    } else {
      var i := FirstTaken(a, b);
      PlannedInAnyOrder(a[1..], b[..i] + b[i + 1..]);
      PlannedAround(b, i);
      assert J.Planned(a) == a[0].targets + J.Planned(a[1..]);
    }
  }

  lemma PlannedAround(jobs: seq<J.Job>, i: nat)
    requires i < |jobs|
    ensures multiset(J.Planned(jobs))
            == multiset(jobs[i].targets) + multiset(J.Planned(jobs[..i] + jobs[i + 1..]))
  {
    var before, rest, after := jobs[..i], jobs[i..], jobs[i + 1..];
    assert jobs == before + rest && rest[1..] == after;
    J.PlannedOfConcat(before, rest);
    J.PlannedOfConcat(before, after);
    assert J.Planned(rest) == jobs[i].targets + J.Planned(after);
  }

  /** The measurement of the i-th target of a turn. */
  ghost predicate IsOwn(m: C.Measurement, t: J.Target, turn: Turn, i: nat) {
    && Fit(turn) && i < |turn.job.targets| && turn.job.targets[i] == t
    && m == C.Measurement(Probed(t), C.CycleAnswer(CycleJob(turn.job), turn.probe, turn.elapsedMs, i), turn.ts)
  }

  ghost predicate IsOwnOfSome(m: C.Measurement, t: J.Target, turns: seq<Turn>) {
    exists turn, i: nat :: turn in turns && IsOwn(m, t, turn, i)
  }

  lemma SomeMore(m: C.Measurement, t: J.Target, turns: seq<Turn>)
    requires turns != [] && IsOwnOfSome(m, t, turns[1..])
    ensures IsOwnOfSome(m, t, turns)
  {
    hide IsOwn;
    var turn, i: nat :| turn in turns[1..] && IsOwn(m, t, turn, i);
    assert turn in turns;
  }

  lemma SubmittedAreOwn(turns: seq<Turn>, k: nat)
    requires turns != [] && Fit(turns[0]) && k < |turns[0].job.targets|
    ensures |Submitted(turns[0])| == |turns[0].job.targets|
    ensures IsOwnOfSome(Submitted(turns[0])[k], turns[0].job.targets[k], turns)
  {
    hide C.CycleAnswer;
    assert IsOwn(Submitted(turns[0])[k], turns[0].job.targets[k], turns[0], k);
  }

  lemma {:induction false} RoundGoesByPlan(turns: seq<Turn>)
    requires forall turn | turn in turns :: Fit(turn)
    ensures var round, planned := Round(turns), J.Planned(JobsOf(turns));
            |round| == |planned| && forall k | 0 <= k < |round| :: IsOwnOfSome(round[k], planned[k], turns)
  {
    hide Fit, IsOwnOfSome, Submitted;
    if turns != [] {
      var rest := turns[1..];
      RoundGoesByPlan(rest);
      var first, targets := Submitted(turns[0]), turns[0].job.targets;
      forall k | 0 <= k < |targets| ensures |first| == |targets| && IsOwnOfSome(first[k], targets[k], turns) {
        SubmittedAreOwn(turns, k);
      }
      SameLength(turns[0]);
      forall k | 0 <= k < |Round(rest)| ensures IsOwnOfSome(Round(rest)[k], J.Planned(JobsOf(rest))[k], turns) {
        SomeMore(Round(rest)[k], J.Planned(JobsOf(rest))[k], turns);
      }
      assert JobsOf(turns)[1..] == JobsOf(rest);
      assert Round(turns) == first + Round(rest);
      assert J.Planned(JobsOf(turns)) == targets + J.Planned(JobsOf(rest));
    }
  }

  lemma SameLength(turn: Turn)
    requires Fit(turn)
    ensures |Submitted(turn)| == |turn.job.targets|
  {
  }

  /** The round has the target's own measurement at k, and no other with its name. */
  ghost predicate IsMeasuredAt(turns: seq<Turn>, round: seq<C.Measurement>, t: J.Target, k: nat) {
    && k < |round| && IsOwnOfSome(round[k], t, turns)
    && forall l | 0 <= l < |round| :: round[l].target.name == t.key <==> l == k
  }

  /** Each of the targets is measured exactly once, and nothing else is. */
  ghost predicate OneEach(turns: seq<Turn>, round: seq<C.Measurement>, targets: seq<J.Target>) {
    && |round| == |targets|
    && (forall t | t in targets :: exists k: nat :: IsMeasuredAt(turns, round, t, k))
    && (forall m | m in round :: exists t :: t in targets && IsOwnOfSome(m, t, turns))
  }

  /** For an accepted configuration whose jobs can be built: in each job the names are different, so that a
      cycle gives each of its targets its own result; and one cycle of every job, in any order, gives each
      enabled target exactly one measurement, its own, and nothing else. */
  lemma EachTargetOnce(nodes: seq<Node>, root: Inherited, defaults: map<string, Value>, text: Value -> string,
                       registry: J.Registry, batching: bool, turns: seq<Turn>)
    requires Parsed(nodes, root, defaults).Ok?
    requires var enabled := J.Enabled(AllScheduled(Parsed(nodes, root, defaults).value, text));
             && J.AllBuildable(enabled, registry, batching)
             && multiset(JobsOf(turns)) == multiset(J.Plan(enabled, registry, batching))
    requires forall turn | turn in turns :: Fit(turn)
    ensures forall job | job in JobsOf(turns) :: C.Unique(CycleJob(job).targets)
    ensures OneEach(turns, Round(turns), J.Enabled(AllScheduled(Parsed(nodes, root, defaults).value, text)))
  {
    hide J.AllBuildable, J.Plan, J.Enabled, Parsed, OneEach, C.Unique, Fit;
    var targets := AllScheduled(Parsed(nodes, root, defaults).value, text);
    var enabled, jobs := J.Enabled(targets), JobsOf(turns);
    AcceptedKeysDiffer(nodes, root, defaults, text);
    EnabledKeysDiffer(targets);
    J.PlanIsAPartition(enabled, registry, batching);
    PlannedInAnyOrder(jobs, J.Plan(enabled, registry, batching));
    ArrangedKeysDiffer(enabled, J.Planned(jobs));
    forall job | job in jobs ensures C.Unique(CycleJob(job).targets) {
      JobKeysDiffer(jobs, job);
    }
    RoundGoesByPlan(turns);
    MeasuredOnce(turns, Round(turns), J.Planned(jobs), enabled);
  }

  lemma EnabledKeysDiffer(targets: seq<J.Target>)
    requires KeysDiffer(targets)
    ensures KeysDiffer(J.Enabled(targets))
  {
    KeptKeysDiffer(targets, (t: J.Target) => t.enabled);
  }

  lemma MeasuredOnce(turns: seq<Turn>, round: seq<C.Measurement>, planned: seq<J.Target>, enabled: seq<J.Target>)
    requires |round| == |planned| && KeysDiffer(planned) && multiset(planned) == multiset(enabled)
    requires forall k | 0 <= k < |round| :: IsOwnOfSome(round[k], planned[k], turns)
    ensures OneEach(turns, round, enabled)
  {
    hide IsOwnOfSome;
    assert |multiset(planned)| == |multiset(enabled)|;
    forall k | 0 <= k < |round| ensures round[k].target.name == planned[k].key {
      OwnName(round[k], planned[k], turns);
    }
    forall t | t in enabled ensures exists k: nat :: IsMeasuredAt(turns, round, t, k) {
      assert t in multiset(planned);
      var k: nat :| k < |planned| && planned[k] == t;
      assert IsMeasuredAt(turns, round, t, k);
    }
    forall m | m in round ensures exists t :: t in enabled && IsOwnOfSome(m, t, turns) {
      var k :| 0 <= k < |round| && round[k] == m;
      assert planned[k] in multiset(enabled);
    }
  }

  lemma OwnName(m: C.Measurement, t: J.Target, turns: seq<Turn>)
    requires IsOwnOfSome(m, t, turns)
    ensures m.target.name == t.key
  {
  }
}
