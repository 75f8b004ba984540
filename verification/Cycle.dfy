/** One measurement cycle of a job, from the probe's raw output to the measurements submitted.

  What the outside world answers comes in as values: what each host resolved to, the table fping
  printed, the result or the exception of a single probe, and the time that passed.
 */
module Cycle {
  import opened Wrappers

  /** `name` is the full key of the configured target. */
  datatype Target = Target(name: string, address: string)

  datatype ErrorType = DnsFailure | PacketLoss | Timeout | ToolMissing | Internal | Classified(text: string)

  datatype Outcome = Outcome(error: Option<ErrorType>, rttsMs: seq<real>, sent: nat, resolvedIp: Option<string>,
                             durationMs: Option<real>)
  {
    predicate Success() {
      error.None?
    }
  }

  /** A line of fping's output: a row of the table, where a lost packet is None, or anything else. */
  datatype Line = Row(address: string, samples: seq<Option<real>>) | Noise

  /** `unexplained` is how the error text is classified when an address has no row. */
  datatype Output = Output(timedOut: bool, lines: seq<Line>, durationMs: real, unexplained: string)

  datatype Crash = MissingTool | Overrun | Crashed

  /** What a host name is answered with: an address, an OSError, or an exception of another kind, such
      as the UnicodeError for a name with an empty label. */
  datatype Lookup = Found(address: string) | Unknown | Threw

  /** How the command ends. One that overruns is not an exception but an output. */
  type CommandRun = r: Result<Output, Crash> | r != Err(Overrun) witness Err(Crashed)

  /** What a probe meets when it runs on a list of targets. `Plain` stands for the probes that fan out
      one by one, `Other` for a batch probe from a plugin, which may answer anything. */
  datatype Probe =
    | Fping(count: nat, resolving: bool, lookups: seq<Lookup>, ran: CommandRun)
    | Plain(answers: seq<Result<Outcome, Crash>>)
    | Other(batch: Result<map<string, Outcome>, Crash>, alone: Result<Outcome, Crash>)

  type Results = map<string, Outcome>

  ghost predicate Unique(targets: seq<Target>) {
    forall i, j | 0 <= i < j < |targets| :: targets[i].name != targets[j].name
  }

  ghost function Names(targets: seq<Target>): set<string> {
    set t | t in targets :: t.name
  }

  function Failure(error: ErrorType): Outcome {
    Outcome(Some(error), [], 0, None, None)
  }

  // ---- fping -------------------------------------------------------------------------------

  function Received(samples: seq<Option<real>>): seq<real> {
    if samples == [] then []
    else Received(samples[..|samples| - 1])
         + (if samples[|samples| - 1].Some? then [samples[|samples| - 1].value] else [])
  }

  /** The first row printed for an address. */
  function FirstRow(lines: seq<Line>, address: string): Option<seq<Option<real>>> {
    if lines == [] then None
    else
      var before, last := FirstRow(lines[..|lines| - 1], address), lines[|lines| - 1];
      if before.None? && last.Row? && last.address == address then Some(last.samples) else before
  }

  lemma {:induction false} FirstRowIsFirst(lines: seq<Line>, address: string)
    ensures FirstRow(lines, address) == None
            <==> forall j | 0 <= j < |lines| :: !(lines[j].Row? && lines[j].address == address)
    ensures forall k | 0 <= k < |lines| && lines[k].Row? && lines[k].address == address
                       && (forall j | 0 <= j < k :: !(lines[j].Row? && lines[j].address == address)) ::
              FirstRow(lines, address) == Some(lines[k].samples)
  {
    if lines != [] {
      var init := lines[..|lines| - 1];
      FirstRowIsFirst(init, address);
      forall k | 0 <= k < |init| ensures init[k] == lines[k] {}
    }
  }

  function RowOutcome(address: string, samples: seq<Option<real>>, count: nat, durationMs: real): Outcome {
    var rtts := Received(samples);
    Outcome(if rtts == [] then Some(PacketLoss) else None, rtts, count, Some(address), Some(durationMs))
  }

  function MissingOutcome(address: string, output: Output, count: nat): Outcome {
    Outcome(Some(if output.timedOut then Timeout else Classified(output.unexplained)), [], count, Some(address),
            Some(output.durationMs))
  }

  /** What fping said about an address. */
  function AddressOutcome(address: string, output: Output, count: nat): Outcome {
    match FirstRow(output.lines, address)
    case Some(samples) => RowOutcome(address, samples, count, output.durationMs)
    case None => MissingOutcome(address, output, count)
  }

  /** parse_batch: a result for each wanted address with a row, from the first such row. */
  method ParseBatch(output: Output, wanted: set<string>, count: nat) returns (results: Results)
    ensures forall a :: a in results <==> a in wanted && FirstRow(output.lines, a).Some?
    ensures forall a | a in results :: results[a] == AddressOutcome(a, output, count)
  {
    results := map[];
    var lines := output.lines;
    for i := 0 to |lines|
      invariant forall a :: a in results <==> a in wanted && FirstRow(lines[..i], a).Some?
      invariant forall a | a in results ::
                  results[a] == RowOutcome(a, FirstRow(lines[..i], a).value, count, output.durationMs)
    {
      assert lines[..i + 1][..i] == lines[..i];
      match lines[i]
      case Noise =>
      case Row(address, samples) =>
        if address in wanted && address !in results {
          results := results[address := RowOutcome(address, samples, count, output.durationMs)];
        }
    }
    assert lines[..|lines|] == lines;
  }

  /** What the lookup of a target comes to. */
  function LookupAt(targets: seq<Target>, resolving: bool, lookups: seq<Lookup>, i: nat): Lookup
    requires i < |targets| == |lookups|
  {
    if resolving then lookups[i] else Found(targets[i].address)
  }

  /** The address a target is measured at; None where there is none. */
  function AddressAt(targets: seq<Target>, resolving: bool, lookups: seq<Lookup>, i: nat): Option<string>
    requires i < |targets| == |lookups|
  {
    var lookup := LookupAt(targets, resolving, lookups, i);
    if lookup.Found? then Some(lookup.address) else None
  }

  predicate AnyThrows(targets: seq<Target>, resolving: bool, lookups: seq<Lookup>)
    requires |targets| == |lookups|
  {
    exists j | 0 <= j < |targets| :: LookupAt(targets, resolving, lookups, j).Threw?
  }

  /** What fping's batch says about one target. */
  function FpingAnswer(address: Option<string>, ran: CommandRun, count: nat): Outcome
    requires address.Some? ==> ran.Ok?
  {
    match address
    case None => Failure(DnsFailure)
    case Some(a) => AddressOutcome(a, ran.value, count)
  }

  /** The targets among the first i that are measured at an address. */
  ghost predicate At(t: Target, targets: seq<Target>, resolving: bool, lookups: seq<Lookup>, i: nat,
                     address: Option<string>)
    requires i <= |targets| == |lookups|
  {
    exists j | 0 <= j < i :: targets[j] == t && AddressAt(targets, resolving, lookups, j) == address
  }

  /** How the first i targets have been sorted. */
  ghost predicate Resolved(targets: seq<Target>, resolving: bool, lookups: seq<Lookup>, i: nat,
                           addresses: seq<string>, byAddress: map<string, seq<Target>>, failures: Results)
    requires i <= |targets| == |lookups|
  {
    && (forall a :: a in byAddress <==> a in addresses)
    && (forall a | a in byAddress :: byAddress[a] != [])
    && (forall a, t | a in byAddress ::
          t in byAddress[a] <==> At(t, targets, resolving, lookups, i, Some(a)))
    && (forall j | 0 <= j < i && AddressAt(targets, resolving, lookups, j).Some? ::
          AddressAt(targets, resolving, lookups, j).value in byAddress)
    && (forall name | name in failures ::
          failures[name] == Failure(DnsFailure)
          && exists t: Target :: t.name == name && At(t, targets, resolving, lookups, i, None))
    && (forall j | 0 <= j < i && AddressAt(targets, resolving, lookups, j).None? :: targets[j].name in failures)
  }

  datatype Resolution = Resolution(addresses: seq<string>, byAddress: map<string, seq<Target>>, failures: Results)

  /** The first loop of probe_many: the targets of each address, and those that do not resolve. The
      first exception other than an OSError ends it, whatever the other lookups say. */
  method Resolve(targets: seq<Target>, resolving: bool, lookups: seq<Lookup>) returns (r: Result<Resolution, Crash>)
    requires |targets| == |lookups|
    ensures r.Err? <==> AnyThrows(targets, resolving, lookups)
    ensures r.Err? ==> r.error == Crashed
    ensures r.Ok? ==> Resolved(targets, resolving, lookups, |targets|, r.value.addresses, r.value.byAddress,
                               r.value.failures)
  {
    hide Resolved, At;
    var addresses: seq<string>, byAddress: map<string, seq<Target>>, failures: Results := [], map[], map[];
    NoneResolved(targets, resolving, lookups);
    for i := 0 to |targets|
      invariant Resolved(targets, resolving, lookups, i, addresses, byAddress, failures)
      invariant forall j | 0 <= j < i :: !LookupAt(targets, resolving, lookups, j).Threw?
    {
      match LookupAt(targets, resolving, lookups, i)
      case Threw =>
        return Err(Crashed);
      case Unknown =>
        OneFails(targets, resolving, lookups, i, addresses, byAddress, failures);
        failures := failures[targets[i].name := Failure(DnsFailure)];
      case Found(address) =>
        ghost var before, sorted := addresses, byAddress;
        if address !in byAddress {
          addresses, byAddress := addresses + [address], byAddress[address := []];
        }
        byAddress := byAddress[address := byAddress[address] + [targets[i]]];
        OneFound(targets, resolving, lookups, i, address, before, sorted, failures, addresses, byAddress);
    }
    r := Ok(Resolution(addresses, byAddress, failures));
  }

  lemma NoneResolved(targets: seq<Target>, resolving: bool, lookups: seq<Lookup>)
    requires |targets| == |lookups|
    ensures Resolved(targets, resolving, lookups, 0, [], map[], map[])
  {
  }

  /** One more target without an address. */
  lemma OneFails(targets: seq<Target>, resolving: bool, lookups: seq<Lookup>, i: nat,
                 addresses: seq<string>, byAddress: map<string, seq<Target>>, failures: Results)
    requires i < |targets| == |lookups| && AddressAt(targets, resolving, lookups, i) == None
    requires Resolved(targets, resolving, lookups, i, addresses, byAddress, failures)
    ensures Resolved(targets, resolving, lookups, i + 1, addresses, byAddress,
                     failures[targets[i].name := Failure(DnsFailure)])
  {
    hide At, AddressAt;
    NextAt(targets, resolving, lookups, i);
  }

  /** One more target at an address, new or known. */
  lemma OneFound(targets: seq<Target>, resolving: bool, lookups: seq<Lookup>, i: nat, address: string,
                 addresses: seq<string>, byAddress: map<string, seq<Target>>, failures: Results,
                 addresses': seq<string>, byAddress': map<string, seq<Target>>)
    requires i < |targets| == |lookups| && AddressAt(targets, resolving, lookups, i) == Some(address)
    requires Resolved(targets, resolving, lookups, i, addresses, byAddress, failures)
    requires addresses' == if address in byAddress then addresses else addresses + [address]
    requires byAddress'
             == byAddress[address := (if address in byAddress then byAddress[address] else []) + [targets[i]]]
    ensures Resolved(targets, resolving, lookups, i + 1, addresses', byAddress', failures)
  {
    hide At, AddressAt;
    NextAt(targets, resolving, lookups, i);
    if address !in byAddress {
      forall t ensures !At(t, targets, resolving, lookups, i, Some(address)) {
        NotAtUnknown(targets, resolving, lookups, i, addresses, byAddress, failures, t, address);
      }
    }
    forall a, t | a in byAddress' ensures t in byAddress'[a] <==> At(t, targets, resolving, lookups, i + 1, Some(a)) {
      if a == address {
        var known := if address in byAddress then byAddress[address] else [];
        assert t in known + [targets[i]] <==> t in known || t == targets[i];
        assert t in known <==> At(t, targets, resolving, lookups, i, Some(a));
      }
    }
  }

  lemma NotAtUnknown(targets: seq<Target>, resolving: bool, lookups: seq<Lookup>, i: nat,
                     addresses: seq<string>, byAddress: map<string, seq<Target>>, failures: Results,
                     t: Target, address: string)
    requires i < |targets| == |lookups| && address !in byAddress
    requires Resolved(targets, resolving, lookups, i, addresses, byAddress, failures)
    ensures !At(t, targets, resolving, lookups, i, Some(address))
  {
  }

  lemma NextAt(targets: seq<Target>, resolving: bool, lookups: seq<Lookup>, i: nat)
    requires i < |targets| == |lookups|
    ensures forall t, a :: At(t, targets, resolving, lookups, i + 1, a)
              <==> At(t, targets, resolving, lookups, i, a)
                   || (t == targets[i] && a == AddressAt(targets, resolving, lookups, i))
    ensures At(targets[i], targets, resolving, lookups, i + 1, AddressAt(targets, resolving, lookups, i))
  {
    hide AddressAt;
    forall t, a | At(t, targets, resolving, lookups, i, a) ensures At(t, targets, resolving, lookups, i + 1, a) {
      var j :| 0 <= j < i && targets[j] == t && AddressAt(targets, resolving, lookups, j) == a;
      assert targets[j] == t;
    }
    assert At(targets[i], targets, resolving, lookups, i + 1, AddressAt(targets, resolving, lookups, i));
    forall t, a | At(t, targets, resolving, lookups, i + 1, a)
      ensures At(t, targets, resolving, lookups, i, a)
              || (t == targets[i] && a == AddressAt(targets, resolving, lookups, i))
    {
      var j :| 0 <= j < i + 1 && targets[j] == t && AddressAt(targets, resolving, lookups, j) == a;
      assert j < i ==> At(t, targets, resolving, lookups, i, a);
    }
  }

  /** One copy of a result for each target of a group. */
  method FanOut(results: Results, group: seq<Target>, outcome: Outcome) returns (r: Results)
    ensures r.Keys == results.Keys + Names(group)
    ensures forall name | name in r :: r[name] == if name in Names(group) then outcome else results[name]
  {
    r := results;
    for i := 0 to |group|
      invariant r.Keys == results.Keys + Names(group[..i])
      invariant forall name | name in r :: r[name] == if name in Names(group[..i]) then outcome else results[name]
    {
      assert group[..i + 1] == group[..i] + [group[i]];
      assert Names(group[..i + 1]) == Names(group[..i]) + {group[i].name};
      r := r[group[i].name := outcome];
    }
    assert group[..|group|] == group;
  }

  /** Unique names: a name leads to one target and one address. */
  lemma OneTarget(targets: seq<Target>, resolving: bool, lookups: seq<Lookup>,
                  t: Target, a: Option<string>, u: Target, b: Option<string>)
    requires |targets| == |lookups| && Unique(targets) && t.name == u.name
    requires At(t, targets, resolving, lookups, |targets|, a)
    requires At(u, targets, resolving, lookups, |targets|, b)
    ensures t == u && a == b
  {
    var i :| 0 <= i < |targets| && targets[i] == t && AddressAt(targets, resolving, lookups, i) == a;
    var j :| 0 <= j < |targets| && targets[j] == u && AddressAt(targets, resolving, lookups, j) == b;
    assert i == j;
  }

  lemma SomeAddress(targets: seq<Target>, resolving: bool, lookups: seq<Lookup>,
                    addresses: seq<string>, byAddress: map<string, seq<Target>>, failures: Results)
    requires |targets| == |lookups|
    requires Resolved(targets, resolving, lookups, |targets|, addresses, byAddress, failures)
    ensures addresses != [] <==> AnyAddress(targets, resolving, lookups)
    ensures byAddress.Keys == set a | a in addresses
    ensures forall name | name in failures :: name in Names(targets)
    ensures forall a, t | a in byAddress && t in byAddress[a] :: t in targets
  {
    if addresses != [] {
      var a := addresses[0];
      assert a in byAddress;
      assert byAddress[a][0] in byAddress[a];
      assert At(byAddress[a][0], targets, resolving, lookups, |targets|, Some(a));
    }
  }

  lemma EachIsReached(targets: seq<Target>, resolving: bool, lookups: seq<Lookup>,
                      addresses: seq<string>, byAddress: map<string, seq<Target>>, failures: Results, i: nat)
    requires i < |targets| == |lookups|
    requires Resolved(targets, resolving, lookups, |targets|, addresses, byAddress, failures)
    ensures match AddressAt(targets, resolving, lookups, i)
            case None => targets[i].name in failures && failures[targets[i].name] == Failure(DnsFailure)
            case Some(a) => a in byAddress && targets[i] in byAddress[a]
  {
    assert At(targets[i], targets, resolving, lookups, |targets|, AddressAt(targets, resolving, lookups, i));
  }

  /** No name is measured at two addresses, nor at one and not at all. */
  ghost predicate Apart(byAddress: map<string, seq<Target>>, failures: Results) {
    && (forall a, b, t, u | a in byAddress && b in byAddress && t in byAddress[a] && u in byAddress[b]
                            && t.name == u.name :: a == b)
    && (forall a, t | a in byAddress && t in byAddress[a] :: t.name !in failures)
  }

  lemma GroupsAreApart(targets: seq<Target>, resolving: bool, lookups: seq<Lookup>,
                       addresses: seq<string>, byAddress: map<string, seq<Target>>, failures: Results)
    requires |targets| == |lookups| && Unique(targets)
    requires Resolved(targets, resolving, lookups, |targets|, addresses, byAddress, failures)
    ensures Apart(byAddress, failures)
  {
    forall a, b, t, u | a in byAddress && b in byAddress && t in byAddress[a] && u in byAddress[b] && t.name == u.name
      ensures a == b
    {
      OneTarget(targets, resolving, lookups, t, Some(a), u, Some(b));
    }
    forall a, u | a in byAddress && u in byAddress[a] ensures u.name !in failures {
      if u.name in failures {
        var t: Target :| t.name == u.name && At(t, targets, resolving, lookups, |targets|, None);
        OneTarget(targets, resolving, lookups, t, None, u, Some(a));
      }
    }
  }

  /** The last loop of probe_many: the result of each address goes to each of its targets. */
  method Share(addresses: seq<string>, byAddress: map<string, seq<Target>>, parsed: Results, output: Output,
               count: nat, failures: Results, ghost names: set<string>)
    returns (results: Results)
    requires forall a | a in addresses :: a in byAddress
    requires forall a | a in addresses :: a in parsed <==> FirstRow(output.lines, a).Some?
    requires forall a | a in parsed :: parsed[a] == AddressOutcome(a, output, count)
    requires failures.Keys <= names && forall a, t | a in byAddress && t in byAddress[a] :: t.name in names
    ensures failures.Keys <= results.Keys <= names
    ensures forall a, t | a in addresses && t in byAddress[a] :: t.name in results
    ensures Apart(byAddress, failures) ==>
              && (forall name | name in failures :: results[name] == failures[name])
              && (forall a, t | a in addresses && t in byAddress[a] ::
                    results[t.name] == AddressOutcome(a, output, count))
  {
    hide FirstRow;
    results := failures;
    for k := 0 to |addresses|
      invariant failures.Keys <= results.Keys <= names
      invariant forall a, t | a in addresses[..k] && t in byAddress[a] :: t.name in results
      invariant Apart(byAddress, failures) ==>
                  && (forall name | name in failures :: results[name] == failures[name])
                  && (forall a, t | a in addresses[..k] && t in byAddress[a] ::
                        results[t.name] == AddressOutcome(a, output, count))
    {
      var address := addresses[k];
      var outcome := if address in parsed then parsed[address] else MissingOutcome(address, output, count);
      assert outcome == AddressOutcome(address, output, count);
      assert addresses[..k + 1] == addresses[..k] + [address];
      results := FanOut(results, byAddress[address], outcome);
    }
    assert addresses[..|addresses|] == addresses;
  }

  predicate AnyAddress(targets: seq<Target>, resolving: bool, lookups: seq<Lookup>)
    requires |targets| == |lookups|
  {
    exists j | 0 <= j < |targets| :: AddressAt(targets, resolving, lookups, j).Some?
  }

  /** How a batch of fping as a whole fails: by a lookup, or by the command, which it only starts for
      an address. */
  function BatchFailure(targets: seq<Target>, resolving: bool, lookups: seq<Lookup>, ran: CommandRun): Option<Crash>
    requires |targets| == |lookups|
  {
    if AnyThrows(targets, resolving, lookups) then Some(Crashed)
    else if AnyAddress(targets, resolving, lookups) && ran.Err? then Some(ran.error)
    else None
  }

  /** fping's probe_many: it fails if and only if a lookup throws, or there is an address and the command
      fails. Otherwise every target gets a result; with unique names, its own. */
  method ProbeManyFping(targets: seq<Target>, count: nat, resolving: bool, lookups: seq<Lookup>, ran: CommandRun)
    returns (r: Result<Results, Crash>)
    requires |targets| == |lookups|
    ensures r.Err? <==> AnyThrows(targets, resolving, lookups)
                        || (AnyAddress(targets, resolving, lookups) && ran.Err?)
    ensures r.Err? ==> r.error == if AnyThrows(targets, resolving, lookups) then Crashed else ran.error
    ensures r.Ok? ==> r.value.Keys == Names(targets)
    ensures r.Ok? && Unique(targets) ==>
              forall i | 0 <= i < |targets| ::
                r.value[targets[i].name] == FpingAnswer(AddressAt(targets, resolving, lookups, i), ran, count)
  {
    hide Resolved, At, AddressAt, FirstRow, Unique, AnyThrows;
    var resolved := Resolve(targets, resolving, lookups);
    if resolved.Err? {
      return Err(resolved.error);
    }
    var Resolution(addresses, byAddress, failures) := resolved.value;
    SomeAddress(targets, resolving, lookups, addresses, byAddress, failures);
    forall i | 0 <= i < |targets| {
      EachIsReached(targets, resolving, lookups, addresses, byAddress, failures, i);
    }
    if |addresses| == 0 {
      return Ok(failures);
    }
    match ran
    case Err(crash) => return Err(crash);
    case Ok(output) =>
      var parsed := ParseBatch(output, byAddress.Keys, count);
      if Unique(targets) {
        GroupsAreApart(targets, resolving, lookups, addresses, byAddress, failures);
      }
      var results := Share(addresses, byAddress, parsed, output, count, failures, Names(targets));
      r := Ok(results);
  }

  // ---- the safety net ------------------------------------------------------------------------

  predicate Fits(probe: Probe, targets: seq<Target>) {
    match probe
    case Fping(_, _, lookups, _) => |lookups| == |targets|
    case Plain(answers) => |answers| == |targets|
    case Other(_, _) => true
  }

  function BatchCrash(crash: Crash): Outcome {
    Failure(if crash == MissingTool then ToolMissing else Internal)
  }

  function SingleCrash(crash: Crash): Outcome {
    Failure(match crash case MissingTool => ToolMissing case Overrun => Timeout case Crashed => Internal)
  }

  function Timed(outcome: Outcome, elapsedMs: real): Outcome {
    if outcome.durationMs == None then outcome.(durationMs := Some(elapsedMs)) else outcome
  }

  /** The result of one target of a batch, whatever the probe does. */
  function BatchAnswer(probe: Probe, targets: seq<Target>, i: nat): Outcome
    requires Fits(probe, targets) && i < |targets|
  {
    match probe
    case Fping(count, resolving, lookups, ran) =>
      var failure := BatchFailure(targets, resolving, lookups, ran);
      if failure.Some? then BatchCrash(failure.value)
      else FpingAnswer(AddressAt(targets, resolving, lookups, i), ran, count)
    case Plain(answers) =>
      if answers[i].Ok? then answers[i].value else Failure(Internal)
    case Other(batch, _) =>
      if batch.Err? then BatchCrash(batch.error)
      else if targets[i].name in batch.value then batch.value[targets[i].name]
      else Failure(Internal)
  }

  /** The result of a target measured alone. */
  function SingleAnswer(probe: Probe, target: Target): Outcome
    requires Fits(probe, [target])
  {
    match probe
    case Fping(count, resolving, lookups, ran) =>
      var failure := BatchFailure([target], resolving, lookups, ran);
      if failure.Some? then SingleCrash(failure.value)
      else FpingAnswer(AddressAt([target], resolving, lookups, 0), ran, count)
    case Plain(answers) => if answers[0].Ok? then answers[0].value else SingleCrash(answers[0].error)
    case Other(_, alone) => if alone.Ok? then alone.value else SingleCrash(alone.error)
  }

  /** The default probe_many: an exception of one target is that target's result. */
  method ProbeManyPlain(targets: seq<Target>, answers: seq<Result<Outcome, Crash>>) returns (out: Results)
    requires |answers| == |targets|
    ensures out.Keys == Names(targets)
    ensures Unique(targets) ==>
              forall i | 0 <= i < |targets| :: out[targets[i].name] == BatchAnswer(Plain(answers), targets, i)
  {
    out := map[];
    for i := 0 to |targets|
      invariant out.Keys == Names(targets[..i])
      invariant Unique(targets) ==>
                  forall j | 0 <= j < i ::
                    targets[j].name in out && out[targets[j].name] == BatchAnswer(Plain(answers), targets, j)
    {
      assert targets[..i + 1] == targets[..i] + [targets[i]];
      match answers[i]
      case Ok(outcome) => out := out[targets[i].name := outcome];
      case Err(_) => out := out[targets[i].name := Failure(Internal)];
    }
    assert targets[..|targets|] == targets;
  }

  /** probe_many of any probe, before the safety net. */
  method ProbeMany(probe: Probe, targets: seq<Target>) returns (r: Result<Results, Crash>)
    requires Fits(probe, targets)
    ensures r.Err? ==> forall i | 0 <= i < |targets| :: BatchAnswer(probe, targets, i) == BatchCrash(r.error)
    ensures r.Ok? && Unique(targets) ==>
              forall i | 0 <= i < |targets| ::
                BatchAnswer(probe, targets, i)
                == if targets[i].name in r.value then r.value[targets[i].name] else Failure(Internal)
  {
    hide AddressAt, AnyAddress, AnyThrows, Unique;
    match probe
    case Fping(count, resolving, lookups, ran) =>
      r := ProbeManyFping(targets, count, resolving, lookups, ran);
    case Plain(answers) =>
      var out := ProbeManyPlain(targets, answers);
      r := Ok(out);
    case Other(batch, _) =>
      r := batch;
  }

  /** The same failure for every target. */
  method AllFailed(targets: seq<Target>, outcome: Outcome) returns (results: Results)
    ensures results.Keys == Names(targets)
    ensures forall name | name in results :: results[name] == outcome
  {
    results := FanOut(map[], targets, outcome);
  }

  /** run_many: every target has a result with a duration; with unique names, its own. */
  method RunMany(probe: Probe, targets: seq<Target>, elapsedMs: real) returns (results: Results)
    requires Fits(probe, targets)
    ensures Names(targets) <= results.Keys
    ensures forall name | name in Names(targets) :: results[name].durationMs.Some?
    ensures Unique(targets) ==>
              forall i | 0 <= i < |targets| ::
                results[targets[i].name] == Timed(BatchAnswer(probe, targets, i), elapsedMs)
    ensures Unique(targets) ==>
              forall i | 0 <= i < |targets| ::
                var own := BatchAnswer(probe, targets, i);
                results[targets[i].name]
                == own.(durationMs := if own.durationMs == None then Some(elapsedMs) else own.durationMs)
    ensures Unique(targets) && !probe.Other? ==>
              forall i | 0 <= i < |targets| ::
                Same(results[targets[i].name], SingleAnswer(Alone(probe, targets, i), targets[i]))
                <==> Undisturbed(probe, targets, i)
    ensures Unique(targets) && probe.Fping? ==>
              forall i, j | 0 <= i < |targets| && 0 <= j < |targets|
                            && AddressAt(targets, probe.resolving, probe.lookups, i)
                               == AddressAt(targets, probe.resolving, probe.lookups, j) ::
                results[targets[i].name] == results[targets[j].name]
  {
    hide BatchAnswer, SingleAnswer, Undisturbed, AddressAt, Alone;
    var probed := ProbeMany(probe, targets);
    match probed {
      case Ok(answers) => results := answers;
      case Err(crash) => results := AllFailed(targets, BatchCrash(crash));
    }
    ghost var before := results;
    for i := 0 to |targets|
      invariant Names(targets[..i]) <= results.Keys
      invariant forall name | name in Names(targets[..i]) :: results[name].durationMs.Some?
      invariant Unique(targets) ==>
                  forall j | 0 <= j < i ::
                    targets[j].name in results
                    && results[targets[j].name] == Timed(BatchAnswer(probe, targets, j), elapsedMs)
      invariant Unique(targets) ==>
                  forall j | i <= j < |targets| ::
                    && (targets[j].name in results <==> targets[j].name in before)
                    && (targets[j].name in before ==> results[targets[j].name] == before[targets[j].name])
    {
      assert targets[..i + 1] == targets[..i] + [targets[i]];
      var name := targets[i].name;
      if name !in results {
        results := results[name := Failure(Internal)];
      }
      if results[name].durationMs == None {
        results := results[name := results[name].(durationMs := Some(elapsedMs))];
      }
    }
    assert targets[..|targets|] == targets;
    SameResults(probe, targets, elapsedMs, results);
  }

  /** run: a single measurement with the same guarantee. */
  method Run(probe: Probe, target: Target, elapsedMs: real) returns (outcome: Outcome)
    requires Fits(probe, [target])
    ensures outcome == Timed(SingleAnswer(probe, target), elapsedMs)
    ensures var own := SingleAnswer(probe, target);
            outcome == own.(durationMs := if own.durationMs == None then Some(elapsedMs) else own.durationMs)
  {
    var probed: Result<Outcome, Crash>;
    match probe {
      case Fping(count, resolving, lookups, ran) =>
        var results := ProbeManyFping([target], count, resolving, lookups, ran);
        assert [target][0] == target;
        assert AddressAt([target], resolving, lookups, 0).Some? == AnyAddress([target], resolving, lookups);
        assert LookupAt([target], resolving, lookups, 0).Threw? == AnyThrows([target], resolving, lookups);
        match results {
          case Ok(answers) =>
            assert target.name in Names([target]);
            assert answers[[target][0].name] == FpingAnswer(AddressAt([target], resolving, lookups, 0), ran, count);
            probed := Ok(answers[target.name]);
          case Err(crash) => probed := Err(crash);
        }
      case Plain(answers) => probed := answers[0];
      case Other(_, alone) => probed := alone;
    }
    match probed {
      case Ok(answer) => outcome := answer;
      case Err(crash) => outcome := SingleCrash(crash);
    }
    if outcome.durationMs == None {
      outcome := outcome.(durationMs := Some(elapsedMs));
    }
  }

  // ---- the cycle --------------------------------------------------------------------------------

  datatype Measurement = Measurement(target: Target, outcome: Outcome, ts: int)

  datatype Job = Job(targets: seq<Target>, batched: bool)

  function Successes(ms: seq<Measurement>): nat {
    if ms == [] then 0
    else Successes(ms[..|ms| - 1]) + if ms[|ms| - 1].outcome.Success() then 1 else 0
  }

  function Failures(ms: seq<Measurement>): nat {
    if ms == [] then 0
    else Failures(ms[..|ms| - 1]) + if ms[|ms| - 1].outcome.Success() then 0 else 1
  }

  lemma {:induction false} SuccessOrFailure(ms: seq<Measurement>)
    ensures Successes(ms) + Failures(ms) == |ms|
  {
    if ms != [] {
      SuccessOrFailure(ms[..|ms| - 1]);
    }
  }

  /** The measurements with an error, or those without. */
  ghost function Having(ms: seq<Measurement>, error: bool): set<int> {
    set i | 0 <= i < |ms| && ms[i].outcome.error.Some? == error
  }

  lemma HavingMore(ms: seq<Measurement>, error: bool)
    requires ms != []
    ensures var n := |ms| - 1;
            && n !in Having(ms[..n], error)
            && Having(ms, error) == Having(ms[..n], error) + if ms[n].outcome.error.Some? == error then {n} else {}
  {
    var n := |ms| - 1;
    assert forall i | 0 <= i < n :: ms[..n][i] == ms[i];
  }

  /** The successes are the measurements without an error, the failures those with one. */
  lemma {:induction false} SuccessesHaveNoError(ms: seq<Measurement>)
    ensures Successes(ms) == |Having(ms, false)| && Failures(ms) == |Having(ms, true)|
  {
    hide Having;
    if ms == [] {
      NoneHas();
    } else {
      SuccessesHaveNoError(ms[..|ms| - 1]);
      HavingMore(ms, false);
      HavingMore(ms, true);
    }
  }

  lemma NoneHas()
    ensures Having([], false) == {} && Having([], true) == {}
  {
  }

  lemma {:induction false} CountsAdd(a: seq<Measurement>, b: seq<Measurement>)
    ensures Successes(a + b) == Successes(a) + Successes(b)
    ensures Failures(a + b) == Failures(a) + Failures(b)
  {
    if b == [] {
      assert a + b == a;
    } else {
      assert (a + b)[..|a + b| - 1] == a + b[..|b| - 1];
      CountsAdd(a, b[..|b| - 1]);
    }
  }

  /** The result a job's cycle gives its i-th target. */
  function CycleAnswer(job: Job, probe: Probe, elapsedMs: real, i: nat): Outcome
    requires Fits(probe, job.targets) && i < |job.targets|
  {
    Timed(if job.batched || |job.targets| > 1 then BatchAnswer(probe, job.targets, i)
          else assert job.targets == [job.targets[0]]; SingleAnswer(probe, job.targets[0]), elapsedMs)
  }

  /** What a job's cycle submits. */
  function Cycled(job: Job, probe: Probe, elapsedMs: real, ts: int): (ms: seq<Measurement>)
    requires Fits(probe, job.targets)
    ensures |ms| == |job.targets|
    ensures forall i | 0 <= i < |ms| :: ms[i] == Measurement(job.targets[i], CycleAnswer(job, probe, elapsedMs, i), ts)
  {
    seq(|job.targets|, i requires 0 <= i < |job.targets| =>
      Measurement(job.targets[i], CycleAnswer(job, probe, elapsedMs, i), ts))
  }

  /** A single target is measured alone, several are as a batch. */
  lemma CycledAs(job: Job, probe: Probe, elapsedMs: real, ts: int)
    requires Fits(probe, job.targets)
    ensures |job.targets| == 1 && !job.batched ==>
              && Fits(probe, [job.targets[0]]) && Unique(job.targets)
              && Same(Cycled(job, probe, elapsedMs, ts)[0].outcome, SingleAnswer(probe, job.targets[0]))
    ensures |job.targets| > 1 ==>
              forall i | 0 <= i < |job.targets| ::
                Same(Cycled(job, probe, elapsedMs, ts)[i].outcome, BatchAnswer(probe, job.targets, i))
  {
    hide SingleAnswer, BatchAnswer;
    if |job.targets| == 1 {
      assert job.targets == [job.targets[0]];
    }
  }

  class Scheduler {
    var cycles: nat
    var measurements: nat
    var successes: nat
    var failures: nat
    /** Everything handed to the sink so far. */
    var submitted: seq<Measurement>

    /** The counters tell what was submitted. */
    ghost predicate Valid()
      reads this
    {
      && measurements == |submitted|
      && successes == Successes(submitted)
      && failures == Failures(submitted)
      && successes + failures == measurements
    }

    constructor ()
      ensures Valid() && cycles == 0 && submitted == []
    {
      cycles, measurements, successes, failures, submitted := 0, 0, 0, 0, [];
    }

    /** _run_cycle: exactly one measurement for each target of the job, in order and at one time. */
    method RunCycle(job: Job, probe: Probe, elapsedMs: real, ts: int)
      requires Valid() && Fits(probe, job.targets) && job.targets != []
      modifies this
      ensures Valid() && cycles == old(cycles) + 1
      ensures |submitted| == |old(submitted)| + |job.targets|
      ensures submitted[..|old(submitted)|] == old(submitted)
      ensures forall i | 0 <= i < |job.targets| ::
                var m := submitted[|old(submitted)| + i];
                m.target == job.targets[i] && m.ts == ts && m.outcome.durationMs.Some?
      ensures Unique(job.targets) ==> submitted == old(submitted) + Cycled(job, probe, elapsedMs, ts)
    {
      hide Fits, BatchAnswer, SingleAnswer, Timed, Successes, Failures, Unique;
      var targets := job.targets;
      var results: Results;
      if job.batched || |targets| > 1 {
        results := RunMany(probe, targets, elapsedMs);
      } else {
        assert targets == [targets[0]];
        var outcome := Run(probe, targets[0], elapsedMs);
        results := map[targets[0].name := outcome];
      }
      var batch := Measure(targets, results, ts);
      CountsAdd(submitted, batch);
      SuccessOrFailure(batch);
      cycles, measurements := cycles + 1, measurements + |batch|;
      var good := CountSuccesses(batch);
      successes, failures := successes + good, failures + (|batch| - good);
      submitted := submitted + batch;
      assert Unique(job.targets) ==> batch == Cycled(job, probe, elapsedMs, ts);
    }
  }

  /** The measurements of the targets that have a result. */
  method Measure(targets: seq<Target>, results: Results, ts: int) returns (batch: seq<Measurement>)
    ensures Names(targets) <= results.Keys ==>
              && |batch| == |targets|
              && forall i | 0 <= i < |batch| :: batch[i] == Measurement(targets[i], results[targets[i].name], ts)
  {
    batch := [];
    for i := 0 to |targets|
      invariant Names(targets) <= results.Keys ==>
                  && |batch| == i
                  && forall j | 0 <= j < i :: batch[j] == Measurement(targets[j], results[targets[j].name], ts)
    {
      assert targets[i].name in Names(targets);
      if targets[i].name in results {
        batch := batch + [Measurement(targets[i], results[targets[i].name], ts)];
      }
    }
  }

  method CountSuccesses(batch: seq<Measurement>) returns (n: nat)
    ensures n == Successes(batch)
  {
    n := 0;
    for i := 0 to |batch|
      invariant n == Successes(batch[..i])
    {
      assert batch[..i + 1][..i] == batch[..i];
      if batch[i].outcome.Success() {
        n := n + 1;
      }
    }
    assert batch[..|batch|] == batch;
  }

  // ---- what a batch means for its targets ---------------------------------------------------------

  /** A target of a batch is a success exactly if it has an address, no lookup threw, the command ran and
      the first row for the address holds a reply; then its samples are the replies of that row. */
  lemma SuccessMeansReplies(probe: Probe, targets: seq<Target>, i: nat, address: string)
    requires probe.Fping? && Fits(probe, targets) && i < |targets|
    requires AddressAt(targets, probe.resolving, probe.lookups, i) == Some(address)
    ensures var answer := BatchAnswer(probe, targets, i);
            && (answer.Success()
                <==> !AnyThrows(targets, probe.resolving, probe.lookups)
                     && probe.ran.Ok? && exists k :: FirstRowAt(probe.ran.value.lines, address, k)
                                                  && Received(probe.ran.value.lines[k].samples) != [])
            && (answer.Success() ==>
                  exists k :: FirstRowAt(probe.ran.value.lines, address, k)
                              && answer.rttsMs == Received(probe.ran.value.lines[k].samples))
  {
    assert AnyAddress(targets, probe.resolving, probe.lookups);
    if probe.ran.Ok? {
      var lines := probe.ran.value.lines;
      FirstRowExists(lines, address);
      forall k | FirstRowAt(lines, address, k) ensures FirstRow(lines, address) == Some(lines[k].samples) {
        FirstRowIsFirst(lines, address);
      }
    }
  }

  /** The replies of a row, in their order. */
  lemma {:induction false} ReceivedInOrder(a: seq<Option<real>>, b: seq<Option<real>>)
    ensures Received(a + b) == Received(a) + Received(b)
    ensures forall x :: Received([Some(x)]) == [x]
    ensures Received([None]) == [] && Received([]) == []
  {
    forall x: Option<real> ensures Received([x]) == if x.Some? then [x.value] else [] {
      assert [x][..0] == [];
    }
    assert Received([None]) == [];
    if b == [] {
      assert a + b == a;
    } else {
      assert (a + b)[..|a + b| - 1] == a + b[..|b| - 1];
      ReceivedInOrder(a, b[..|b| - 1]);
    }
  }

  /** What a batch of fping that ran tells of a target with an address: as many packets sent as configured,
      the replies of the first row for the address, loss where that has none, and where there is no row the
      overrun, or what the text explains. */
  lemma AnswerAtAddress(probe: Probe, targets: seq<Target>, i: nat, address: string)
    requires probe.Fping? && Fits(probe, targets) && i < |targets| && probe.ran.Ok?
    requires !AnyThrows(targets, probe.resolving, probe.lookups)
    requires if probe.resolving then probe.lookups[i] == Found(address) else targets[i].address == address
    ensures var answer, output := BatchAnswer(probe, targets, i), probe.ran.value;
            && answer.sent == probe.count && answer.resolvedIp == Some(address)
            && answer.durationMs == Some(output.durationMs)
            && (forall k | FirstRowAt(output.lines, address, k) ::
                  && answer.rttsMs == Received(output.lines[k].samples)
                  && answer.error == if answer.rttsMs == [] then Some(PacketLoss) else None)
            && ((forall k :: !FirstRowAt(output.lines, address, k)) ==>
                  && answer.rttsMs == []
                  && answer.error == Some(if output.timedOut then Timeout else Classified(output.unexplained)))
  {
    var lines := probe.ran.value.lines;
    FirstRowExists(lines, address);
    forall k | FirstRowAt(lines, address, k) ensures FirstRow(lines, address) == Some(lines[k].samples) {
      FirstRowIsFirst(lines, address);
    }
  }

  /** What it tells where it fails: a lookup that throws fails every target, as internal; then a command
      that is missing or crashes, if there is an address for it; and a host that does not resolve fails
      itself. Such failures have no samples, and count no packets. */
  lemma FailureOfBatch(probe: Probe, targets: seq<Target>, i: nat)
    requires probe.Fping? && Fits(probe, targets) && i < |targets|
    ensures var answer := BatchAnswer(probe, targets, i);
            var throws := probe.resolving && Threw in probe.lookups;
            var addressed := !probe.resolving || exists x :: x in probe.lookups && x.Found?;
            && (throws ==> answer == Outcome(Some(Internal), [], 0, None, None))
            && (!throws && addressed && probe.ran == Err(MissingTool) ==>
                  answer == Outcome(Some(ToolMissing), [], 0, None, None))
            && (!throws && addressed && probe.ran == Err(Crashed) ==>
                  answer == Outcome(Some(Internal), [], 0, None, None))
            && (!throws && !(addressed && probe.ran.Err?) && probe.resolving && probe.lookups[i] == Unknown ==>
                  answer == Outcome(Some(DnsFailure), [], 0, None, None))
  {
    hide AddressOutcome;
    if probe.resolving && Threw in probe.lookups {
      var j :| 0 <= j < |targets| && probe.lookups[j] == Threw;
      assert LookupAt(targets, probe.resolving, probe.lookups, j).Threw?;
    }
    if !probe.resolving {
      assert AddressAt(targets, probe.resolving, probe.lookups, i).Some?;
    } else if x :| x in probe.lookups && x.Found? {
      var j :| 0 <= j < |targets| && probe.lookups[j] == x;
      assert AddressAt(targets, probe.resolving, probe.lookups, j).Some?;
    }
  }

  /** What becomes of an exception: in a batch of another probe and alone. */
  lemma ExceptionsAreTold(probe: Probe, target: Target, crash: Crash)
    requires Fits(probe, [target])
    ensures probe == Other(Err(crash), Err(crash)) || probe == Plain([Err(crash)]) ==>
              SingleAnswer(probe, target)
              == Outcome(Some(match crash
                              case MissingTool => ToolMissing
                              case Overrun => Timeout
                              case Crashed => Internal), [], 0, None, None)
    ensures probe == Plain([Err(crash)]) ==>
              BatchAnswer(probe, [target], 0) == Outcome(Some(Internal), [], 0, None, None)
    ensures probe == Other(Err(crash), Err(crash)) ==>
              BatchAnswer(probe, [target], 0)
              == Outcome(Some(if crash == MissingTool then ToolMissing else Internal), [], 0, None, None)
  {
  }

  ghost predicate FirstRowAt(lines: seq<Line>, address: string, k: int) {
    && 0 <= k < |lines| && lines[k].Row? && lines[k].address == address
    && forall j | 0 <= j < k :: !(lines[j].Row? && lines[j].address == address)
  }

  lemma {:induction false} FirstRowExists(lines: seq<Line>, address: string)
    ensures FirstRow(lines, address).Some? ==> exists k :: FirstRowAt(lines, address, k)
  {
    if lines != [] {
      var init, n := lines[..|lines| - 1], |lines| - 1;
      FirstRowExists(init, address);
      FirstRowIsFirst(init, address);
      if FirstRow(init, address).Some? {
        var k :| FirstRowAt(init, address, k);
        assert FirstRowAt(lines, address, k);
      } else if FirstRow(lines, address).Some? {
        forall j | 0 <= j < n ensures lines[j] == init[j] {}
        assert FirstRowAt(lines, address, n);
      }
    }
  }

  /** The probe as it meets one of the targets alone. */
  function Alone(probe: Probe, targets: seq<Target>, i: nat): (alone: Probe)
    requires !probe.Other? && Fits(probe, targets) && i < |targets|
    ensures Fits(alone, [targets[i]])
  {
    match probe
    case Fping(count, resolving, lookups, ran) => Fping(count, resolving, [lookups[i]], ran)
    case Plain(answers) => Plain([answers[i]])
  }

  /** Two results that differ in their durations at most. */
  predicate Same(a: Outcome, b: Outcome) {
    a.(durationMs := None) == b.(durationMs := None)
  }

  /** A target of fping is not disturbed by the others of its batch if no lookup throws and the command
      runs, or is not needed, or fails for a target that has an address. If a lookup throws, it has to be
      the target's own, or the target would have crashed anyway. A target of another probe is disturbed
      where its exception has an error type of its own. */
  predicate Undisturbed(probe: Probe, targets: seq<Target>, i: nat)
    requires !probe.Other? && Fits(probe, targets) && i < |targets|
  {
    match probe
    case Fping(count, resolving, lookups, ran) =>
      var lookup := LookupAt(targets, resolving, lookups, i);
      if AnyThrows(targets, resolving, lookups) then lookup.Threw? || (lookup.Found? && ran == Err(Crashed))
      else ran.Ok? || lookup.Found? || !AnyAddress(targets, resolving, lookups)
    case Plain(answers) => answers[i].Ok? || answers[i].error == Crashed
  }

  /** A batch gives a target what it would get alone if and only if it is not disturbed. */
  lemma BatchingIsTransparent(probe: Probe, targets: seq<Target>, i: nat)
    requires !probe.Other? && Fits(probe, targets) && i < |targets|
    ensures Same(BatchAnswer(probe, targets, i), SingleAnswer(Alone(probe, targets, i), targets[i]))
            <==> Undisturbed(probe, targets, i)
  {
    hide FirstRow;
    if probe.Fping? {
      AloneLooksUp(probe, targets, i);
    }
  }

  lemma AloneLooksUp(probe: Probe, targets: seq<Target>, i: nat)
    requires probe.Fping? && Fits(probe, targets) && i < |targets|
    ensures var alone := Alone(probe, targets, i);
            var lookup := LookupAt(targets, probe.resolving, probe.lookups, i);
            && LookupAt([targets[i]], probe.resolving, alone.lookups, 0) == lookup
            && (AnyThrows([targets[i]], probe.resolving, alone.lookups) <==> lookup.Threw?)
            && (AnyAddress([targets[i]], probe.resolving, alone.lookups) <==> lookup.Found?)
  {
    var only, lookups := [targets[i]], Alone(probe, targets, i).lookups;
    assert lookups == [probe.lookups[i]];
    var lookup := LookupAt(only, probe.resolving, lookups, 0);
    assert lookup == LookupAt(targets, probe.resolving, probe.lookups, i);
    assert AddressAt(only, probe.resolving, lookups, 0).Some? <==> lookup.Found?;
  }

  /** What the results of a batch say of the single results, and of each other. */
  lemma SameResults(probe: Probe, targets: seq<Target>, elapsedMs: real, results: Results)
    requires Fits(probe, targets) && Names(targets) <= results.Keys
    requires Unique(targets) ==>
               forall i | 0 <= i < |targets| ::
                 results[targets[i].name] == Timed(BatchAnswer(probe, targets, i), elapsedMs)
    ensures Unique(targets) && !probe.Other? ==>
              forall i | 0 <= i < |targets| ::
                Same(results[targets[i].name], SingleAnswer(Alone(probe, targets, i), targets[i]))
                <==> Undisturbed(probe, targets, i)
    ensures Unique(targets) && probe.Fping? ==>
              forall i, j | 0 <= i < |targets| && 0 <= j < |targets|
                            && AddressAt(targets, probe.resolving, probe.lookups, i)
                               == AddressAt(targets, probe.resolving, probe.lookups, j) ::
                results[targets[i].name] == results[targets[j].name]
  {
    hide SingleAnswer, Undisturbed, Alone, FirstRow, AnyThrows, AnyAddress, AddressAt, Unique;
    if Unique(targets) && !probe.Other? {
      forall i | 0 <= i < |targets|
        ensures Same(results[targets[i].name], SingleAnswer(Alone(probe, targets, i), targets[i]))
                <==> Undisturbed(probe, targets, i)
      {
        BatchingIsTransparent(probe, targets, i);
      }
    }
  }

  /** A target that alone is measured successfully is a success in a batch, with the same result, if and
      only if no lookup of the batch throws. */
  lemma SuccessNeedsEveryLookup(probe: Probe, targets: seq<Target>, i: nat)
    requires probe.Fping? && Fits(probe, targets) && i < |targets|
    requires SingleAnswer(Alone(probe, targets, i), targets[i]).Success()
    ensures var batch, alone := BatchAnswer(probe, targets, i), SingleAnswer(Alone(probe, targets, i), targets[i]);
            && (batch == alone <==> !AnyThrows(targets, probe.resolving, probe.lookups))
            && (batch.Success() <==> !AnyThrows(targets, probe.resolving, probe.lookups))
  {
    hide FirstRow;
    AloneLooksUp(probe, targets, i);
  }

  /** A good host and one whose name has an empty label. */
  const GOOD_AND_BAD := [Target("/good#fping", "192.0.2.1"), Target("/bad#fping", "a..b")]

  const ONE_REPLY := Output(false, [Row("192.0.2.1", [Some(12.5)])], 20.0, "")

  /** Alone the good host answers; together with the bad one, both are internal errors. */
  lemma OneBadNameFailsTheBatch()
    ensures var probe := Fping(1, true, [Found("192.0.2.1"), Threw], Ok(ONE_REPLY));
            var good, bad := GOOD_AND_BAD[0], GOOD_AND_BAD[1];
            && SingleAnswer(Alone(probe, GOOD_AND_BAD, 0), good)
               == Outcome(None, [12.5], 1, Some("192.0.2.1"), Some(20.0))
            && BatchAnswer(probe, GOOD_AND_BAD, 0) == BatchAnswer(probe, GOOD_AND_BAD, 1) == Failure(Internal)
  {
    var probe := Fping(1, true, [Found("192.0.2.1"), Threw], Ok(ONE_REPLY));
    AloneLooksUp(probe, GOOD_AND_BAD, 0);
    assert LookupAt(GOOD_AND_BAD, true, probe.lookups, 1).Threw?;
    var lines := ONE_REPLY.lines;
    FirstRowIsFirst(lines, "192.0.2.1");
    assert FirstRow(lines, "192.0.2.1") == Some(lines[0].samples);
    assert Received([]) == [] && [Some(12.5)][..0] == [];
  }
}
