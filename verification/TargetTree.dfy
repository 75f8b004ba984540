/** The tree of configured targets and what it means.

  The meaning is stated node by node: each node is seen with the chain of its ancestors, and every
  setting is the one of the nearest node that has it. The walk, which hands settings down while it
  flattens the tree, is proved to compute that meaning.
 */
module TargetTree {
  import opened Wrappers
  import opened Merge

  datatype Probes = Absent | Listed(names: seq<string>) | Unlisted

  /** `Given("")` is a probe set to nothing. */
  datatype Probe = Inherit | Given(name: string)

  datatype Interval = Unset | Seconds(value: real) | NotANumber

  datatype Children = Nodes(nodes: seq<Node>) | NotAList

  /** A raw node. Missing and empty strings are "", missing and empty options None; `own` holds the
      options nested under the name of a probe. */
  datatype Node =
    | NotAMapping
    | Node(name: string, probes: Probes, probe: Probe, interval: Interval, options: Option<Value>,
           enabled: Option<bool>, host: string, own: map<string, Value>, children: Children)

  datatype Inherited = Inherited(probe: string, interval: real, options: Value, enabled: bool)

  datatype Spec = Spec(name: string, group: string, host: string, probe: string, interval: real,
                       options: Value, enabled: bool)

  datatype ConfigError =
    | NodeNotAMapping
    | MissingName
    | SlashInName
    | ProbesNotAList
    | BadInterval
    | BadOptions
    | NoProbe
    | ChildrenNotAList
    | NothingToMeasure
    | Duplicate(key: string)
    | BadDefaults(probe: string)
    | NoTargets

  type Chain = chain: seq<Node> | chain != [] witness [NotAMapping]

  // ---- the meaning of a node in its chain -----------------------------------------------------

  /** The interval of the nearest node that sets one. */
  function IntervalOf(chain: seq<Node>, root: Inherited): real {
    if chain == [] then root.interval
    else
      var node := chain[|chain| - 1];
      if node.Node? && node.interval.Seconds? then node.interval.value else IntervalOf(chain[..|chain| - 1], root)
  }

  function EnabledOf(chain: seq<Node>, root: Inherited): bool {
    if chain == [] then root.enabled
    else
      var node := chain[|chain| - 1];
      if node.Node? && node.enabled.Some? then node.enabled.value else EnabledOf(chain[..|chain| - 1], root)
  }

  /** The probe a node hands down, if it names exactly one. */
  function Single(node: Node): Option<string> {
    if node.NotAMapping? then None
    else
      match node.probes
      case Listed(names) => if |names| == 1 then Some(names[0]) else None
      case Absent => if node.probe.Given? && node.probe.name != "" then Some(node.probe.name) else None
      case Unlisted => None
  }

  /** The probe of the nearest node that names exactly one. */
  function ProbeOf(chain: seq<Node>, root: Inherited): string {
    if chain == [] then root.probe
    else
      match Single(chain[|chain| - 1])
      case Some(name) => name
      case None => ProbeOf(chain[..|chain| - 1], root)
  }

  function Named(probe: string): seq<string> {
    if probe == "" then [] else [probe]
  }

  /** The probes a node is measured with. */
  function ProbesOf(chain: seq<Node>, root: Inherited): seq<string> {
    if chain == [] || chain[|chain| - 1].NotAMapping? then []
    else
      var node := chain[|chain| - 1];
      match node.probes
      case Listed(names) => names
      case Absent => Named(if node.probe.Given? then node.probe.name else ProbeOf(chain[..|chain| - 1], root))
      case Unlisted => []
  }

  function OrEmpty(options: Option<Value>): Value {
    if options.Some? then options.value else EMPTY
  }

  function OwnOptions(node: Node): Value {
    if node.Node? then OrEmpty(node.options) else EMPTY
  }

  /** The options of the chain's nodes, the outermost first. */
  function OptionLayers(chain: seq<Node>): (layers: seq<Value>)
    ensures |layers| == |chain|
  {
    if chain == [] then [] else OptionLayers(chain[..|chain| - 1]) + [OwnOptions(chain[|chain| - 1])]
  }

  function OptionsOf(chain: seq<Node>, root: Inherited): Value {
    Layered(root.options, OptionLayers(chain))
  }

  function PathOf(chain: seq<Node>): seq<string> {
    if chain == [] then []
    else
      var node := chain[|chain| - 1];
      PathOf(chain[..|chain| - 1]) + [if node.Node? then node.name else ""]
  }

  function Join(path: seq<string>): string
    requires path != []
  {
    if |path| == 1 then path[0] else path[0] + "/" + Join(path[1..])
  }

  function GroupOf(path: seq<string>): string {
    if path == [] then "/" else "/" + Join(path)
  }

  function PerProbe(node: Node, probe: string): Value {
    if node.Node? && probe in node.own then node.own[probe] else EMPTY
  }

  /** The target that a node with a host is for one of its probes. */
  function SpecFor(chain: Chain, root: Inherited, probe: string): Spec
    requires chain[|chain| - 1].Node?
  {
    var node, above := chain[|chain| - 1], chain[..|chain| - 1];
    Spec(node.name, GroupOf(PathOf(above)), node.host, probe, IntervalOf(chain, root),
         Overlay(OptionsOf(chain, root), PerProbe(node, probe)), EnabledOf(chain, root))
  }

  function SpecsFor(chain: Chain, root: Inherited, probes: seq<string>): (specs: seq<Spec>)
    requires chain[|chain| - 1].Node?
    ensures |specs| == |probes| && forall i | 0 <= i < |specs| :: specs[i] == SpecFor(chain, root, probes[i])
  {
    seq(|probes|, i requires 0 <= i < |probes| => SpecFor(chain, root, probes[i]))
  }

  /** One target for each probe of a node with a host. */
  function SpecsOf(chain: Chain, root: Inherited): seq<Spec> {
    var node := chain[|chain| - 1];
    if node.Node? && node.host != "" then SpecsFor(chain, root, ProbesOf(chain, root)) else []
  }

  /** What is wrong with a node, the first complaint of the walk. */
  function Fault(chain: Chain, root: Inherited): Option<ConfigError> {
    var node := chain[|chain| - 1];
    if node.NotAMapping? then Some(NodeNotAMapping)
    else if node.name == "" then Some(MissingName)
    else if '/' in node.name then Some(SlashInName)
    else if node.probes.Unlisted? then Some(ProbesNotAList)
    else if node.interval.NotANumber? then Some(BadInterval)
    else if !OrEmpty(node.options).Mapping? then Some(BadOptions)
    else if node.host != "" && ProbesOf(chain, root) == [] then Some(NoProbe)
    else if node.host != "" && exists p | p in ProbesOf(chain, root) :: !PerProbe(node, p).Mapping? then
      Some(BadOptions)
    else if node.children.NotAList? then Some(ChildrenNotAList)
    else if node.host == "" && node.children.nodes == [] then Some(NothingToMeasure)
    else None
  }

  /** A target bears the name and host of its node and the probe it is for; its group spells the names of the
      node's ancestors. */
  lemma SpecTells(chain: Chain, root: Inherited, probe: string)
    requires chain[|chain| - 1].Node?
    ensures var spec, node := SpecFor(chain, root, probe), chain[|chain| - 1];
            && spec.name == node.name && spec.host == node.host && spec.probe == probe
            && spec.group == GroupOf(PathOf(chain[..|chain| - 1]))
            && spec.interval == IntervalOf(chain, root) && spec.enabled == EnabledOf(chain, root)
            && spec.options
               == Overlay(OptionsOf(chain, root), if probe in node.own then node.own[probe] else Mapping(map[]))
  {
  }

  /** A node without a host is no target; one with a host is one for each of its probes, in their order. */
  lemma TargetsTell(chain: Chain, root: Inherited)
    ensures var node, specs := chain[|chain| - 1], SpecsOf(chain, root);
            && (node == NotAMapping || node.host == "" ==> specs == [])
            && (node.Node? && node.host != "" ==>
                  && |specs| == |ProbesOf(chain, root)|
                  && forall i | 0 <= i < |specs| :: specs[i] == SpecFor(chain, root, ProbesOf(chain, root)[i]))
  {
    hide ProbesOf;
  }

  lemma {:induction false} PathIsTheNames(chain: seq<Node>)
    ensures |PathOf(chain)| == |chain|
    ensures forall i | 0 <= i < |chain| && chain[i].Node? :: PathOf(chain)[i] == chain[i].name
  {
    if chain != [] {
      PathIsTheNames(chain[..|chain| - 1]);
    }
  }

  lemma {:induction false} GroupSpellsThePath(path: seq<string>, name: string)
    ensures GroupOf([]) == "/" && GroupOf([name]) == "/" + name
    ensures path != [] ==> GroupOf(path + [name]) == GroupOf(path) + "/" + name
  {
    if path != [] {
      JoinOneMore(path, name);
    }
  }

  lemma {:induction false} JoinOneMore(path: seq<string>, name: string)
    requires path != []
    ensures Join(path + [name]) == Join(path) + "/" + name
  {
    assert (path + [name])[1..] == path[1..] + [name];
    if |path| > 1 {
      JoinOneMore(path[1..], name);
    }
  }

  /** A node is measured with the probes of its list, or with the one it names, unless that is nothing, or else
      with the one it inherits: that of the nearest node that lists or names exactly one. */
  lemma ProbesTell(chain: Chain, root: Inherited)
    requires chain[|chain| - 1].Node?
    ensures var node := chain[|chain| - 1];
            var inherited := ProbeOf(chain[..|chain| - 1], root);
            ProbesOf(chain, root)
            == match (node.probes, node.probe)
               case (Listed(names), _) => names
               case (Unlisted, _) => []
               case (Absent, Given(name)) => if name == "" then [] else [name]
               case (Absent, Inherit) => if inherited == "" then [] else [inherited]
    ensures forall x ::
              Single(chain[|chain| - 1]) == Some(x)
              <==> var node := chain[|chain| - 1];
                   node.probes == Listed([x]) || (node.probes == Absent && node.probe == Given(x) && x != "")
  {
    var node := chain[|chain| - 1];
    if node.probes.Listed? && |node.probes.names| == 1 {
      assert node.probes.names == [node.probes.names[0]];
    }
  }

  /** Which complaint a node gives rise to: the first check that it fails decides. */
  lemma FaultExactlyIf(chain: Chain, root: Inherited)
    ensures var node, fault := chain[|chain| - 1], Fault(chain, root);
            var probes := ProbesOf(chain, root);
            var named := node.Node? && node.name != "" && '/' !in node.name;
            var listed := named && node.probes != Unlisted;
            var timed := listed && node.interval != NotANumber;
            var optioned := timed && (node.options == None || node.options.value.Mapping?);
            var probed := optioned && (node.host != "" ==> probes != []);
            var owned := probed && (node.host != "" ==>
                                      forall p | p in probes && p in node.own :: node.own[p].Mapping?);
            var parent := owned && node.children.Nodes?;
            && (fault == Some(NodeNotAMapping) <==> node == NotAMapping)
            && (fault == Some(MissingName) <==> node.Node? && node.name == "")
            && (fault == Some(SlashInName) <==> node.Node? && '/' in node.name)
            && (fault == Some(ProbesNotAList) <==> named && !listed)
            && (fault == Some(BadInterval) <==> listed && !timed)
            && (fault == Some(BadOptions) <==> (timed && !optioned) || (probed && !owned))
            && (fault == Some(NoProbe) <==> optioned && !probed)
            && (fault == Some(ChildrenNotAList) <==> owned && !parent)
            && (fault == Some(NothingToMeasure) <==> parent && node.host == "" && node.children.nodes == [])
            && (fault == None <==> parent && (node.host != "" || node.children.nodes != []))
  {
    hide ProbesOf;
  }

  // ---- the meaning of a tree --------------------------------------------------------------------

  /** Every node below and including this one, in pre-order, each with the nodes above it. */
  function Chains(node: Node, above: seq<Node>): seq<Chain>
    decreases node
  {
    var here := above + [node];
    [here] + if node.Node? && node.children.Nodes? then ChainsOf(node.children.nodes, here) else []
  }

  function ChainsOf(nodes: seq<Node>, above: seq<Node>): seq<Chain>
    decreases nodes
  {
    if nodes == [] then [] else ChainsOf(nodes[..|nodes| - 1], above) + Chains(nodes[|nodes| - 1], above)
  }

  function AllSpecs(chains: seq<Chain>, root: Inherited): seq<Spec> {
    if chains == [] then [] else AllSpecs(chains[..|chains| - 1], root) + SpecsOf(chains[|chains| - 1], root)
  }

  function FirstFault(chains: seq<Chain>, root: Inherited): Option<ConfigError> {
    if chains == [] then None
    else
      match FirstFault(chains[..|chains| - 1], root)
      case Some(e) => Some(e)
      case None => Fault(chains[|chains| - 1], root)
  }

  /** The targets of all nodes in order, or the first fault. */
  function Meaning(chains: seq<Chain>, root: Inherited): Result<seq<Spec>, ConfigError> {
    match FirstFault(chains, root)
    case Some(e) => Err(e)
    case None => Ok(AllSpecs(chains, root))
  }

  /** The fault of a list of nodes is that of the first node that has one. */
  lemma {:induction false} FirstFaultIsFirst(chains: seq<Chain>, root: Inherited)
    ensures FirstFault(chains, root) == None <==> forall k | 0 <= k < |chains| :: Fault(chains[k], root) == None
    ensures FirstFault(chains, root).Some? ==>
              exists k :: 0 <= k < |chains| && Fault(chains[k], root) == FirstFault(chains, root)
                          && forall j | 0 <= j < k :: Fault(chains[j], root) == None
  {
    hide Fault;
    if chains != [] {
      var n := |chains| - 1;
      var init := chains[..n];
      FirstFaultIsFirst(init, root);
      assert forall i | 0 <= i < n :: init[i] == chains[i];
      if FirstFault(init, root).Some? {
        var k :| 0 <= k < n && Fault(init[k], root) == FirstFault(init, root)
                 && forall j | 0 <= j < k :: Fault(init[j], root) == None;
        assert Fault(chains[k], root) == FirstFault(chains, root);
      }
    }
  }

  /** The nodes of a tree come in pre-order: a node first, its children after it, those of one child before
      those of the next. */
  lemma PreOrder(node: Node, nodes: seq<Node>, more: seq<Node>, above: seq<Node>)
    ensures Chains(node, above)[0] == above + [node]
    ensures node.Node? && node.children.Nodes? ==>
              Chains(node, above)[1..] == ChainsOf(node.children.nodes, above + [node])
    ensures !(node.Node? && node.children.Nodes?) ==> |Chains(node, above)| == 1
    ensures ChainsOf(nodes + more, above) == ChainsOf(nodes, above) + ChainsOf(more, above)
    ensures ChainsOf([node], above) == Chains(node, above) && ChainsOf([], above) == []
  {
    ChainsOfConcat(nodes, more, above);
    var none: seq<Node> := [];
    assert [node][..0] == none;
  }

  lemma {:induction false} ChainsOfConcat(nodes: seq<Node>, more: seq<Node>, above: seq<Node>)
    ensures ChainsOf(nodes + more, above) == ChainsOf(nodes, above) + ChainsOf(more, above)
    decreases |more|
  {
    hide Chains;
    if more == [] {
      assert nodes + more == nodes;
    } else {
      var n := |nodes + more| - 1;
      assert (nodes + more)[..n] == nodes + more[..|more| - 1] && (nodes + more)[n] == more[|more| - 1];
      ChainsOfConcat(nodes, more[..|more| - 1], above);
    }
  }

  lemma {:induction false} FaultOfConcat(a: seq<Chain>, b: seq<Chain>, root: Inherited)
    ensures FirstFault(a + b, root) == if FirstFault(a, root).Some? then FirstFault(a, root) else FirstFault(b, root)
  {
    hide Fault;
    if b == [] {
      assert a + b == a;
    } else {
      var n := |a + b| - 1;
      assert (a + b)[..n] == a + b[..|b| - 1] && (a + b)[n] == b[|b| - 1];
      FaultOfConcat(a, b[..|b| - 1], root);
    }
  }

  lemma {:induction false} SpecsOfConcat(a: seq<Chain>, b: seq<Chain>, root: Inherited)
    ensures AllSpecs(a + b, root) == AllSpecs(a, root) + AllSpecs(b, root)
  {
    hide SpecsOf;
    if b == [] {
      assert a + b == a;
    } else {
      var n := |a + b| - 1;
      assert (a + b)[..n] == a + b[..|b| - 1] && (a + b)[n] == b[|b| - 1];
      SpecsOfConcat(a, b[..|b| - 1], root);
    }
  }

  lemma MeaningOfConcat(a: seq<Chain>, b: seq<Chain>, root: Inherited)
    ensures Meaning(a + b, root) == Both(Meaning(a, root), Meaning(b, root))
  {
    hide FirstFault, AllSpecs;
    FaultOfConcat(a, b, root);
    SpecsOfConcat(a, b, root);
  }

  function Both(a: Result<seq<Spec>, ConfigError>, b: Result<seq<Spec>, ConfigError>): Result<seq<Spec>, ConfigError> {
    if a.Err? then a else if b.Err? then b else Ok(a.value + b.value)
  }

  lemma MeaningOfOne(chain: Chain, root: Inherited)
    ensures Meaning([chain], root)
            == match Fault(chain, root) case Some(e) => Err(e) case None => Ok(SpecsOf(chain, root))
    ensures Meaning([], root) == Ok([])
  {
    hide Fault, SpecsOf;
    var none: seq<Chain> := [];
    assert [chain][..0] == none;
    assert FirstFault([chain], root) == Fault(chain, root);
    assert AllSpecs([chain], root) == AllSpecs(none, root) + SpecsOf(chain, root) == SpecsOf(chain, root);
  }

  // ---- the walk -----------------------------------------------------------------------------------

  /** What a chain of nodes hands down. */
  function HandedDown(chain: seq<Node>, root: Inherited): Inherited {
    Inherited(ProbeOf(chain, root), IntervalOf(chain, root), OptionsOf(chain, root), EnabledOf(chain, root))
  }

  /** The settings of a node, from its own fields and what was handed down. */
  lemma LastSettings(above: seq<Node>, node: Node, root: Inherited)
    requires node.Node?
    ensures var chain, given := above + [node], HandedDown(above, root);
            && OptionsOf(chain, root) == Overlay(given.options, OrEmpty(node.options))
            && IntervalOf(chain, root) == (if node.interval.Seconds? then node.interval.value else given.interval)
            && EnabledOf(chain, root) == (if node.enabled.Some? then node.enabled.value else given.enabled)
            && ProbesOf(chain, root)
               == (match node.probes
                   case Listed(names) => names
                   case Absent => Named(if node.probe.Given? then node.probe.name else given.probe)
                   case Unlisted => [])
            && (ProbeOf(chain, root)
                == if |ProbesOf(chain, root)| == 1 then ProbesOf(chain, root)[0] else given.probe)
  {
    hide Overlay;
    var chain := above + [node];
    assert chain[..|chain| - 1] == above && chain[|chain| - 1] == node;
    assert OptionLayers(chain)[..|chain| - 1] == OptionLayers(above);
  }

  /** The node's settings resolved against what it inherited. */
  method Resolve(node: Node, inherited: Inherited, ghost above: seq<Node>, ghost root: Inherited)
    returns (r: Result<(seq<string>, Inherited), ConfigError>)
    requires inherited == HandedDown(above, root) && node.Node?
    requires inherited.options.Mapping?
    ensures var chain := above + [node];
            match r
            case Ok((probes, current)) =>
              && !node.probes.Unlisted? && !node.interval.NotANumber? && OrEmpty(node.options).Mapping?
              && probes == ProbesOf(chain, root) && current == HandedDown(chain, root) && current.options.Mapping?
            case Err(e) =>
              if node.probes.Unlisted? then e == ProbesNotAList
              else if node.interval.NotANumber? then e == BadInterval
              else !OrEmpty(node.options).Mapping? && e == BadOptions
  {
    hide Overlay, OptionsOf, IntervalOf, EnabledOf, ProbeOf, ProbesOf, OwnOptions;
    ghost var chain := above + [node];
    LastSettings(above, node, root);
    var probes: seq<string> := [];
    match node.probes {
      case Unlisted => return Err(ProbesNotAList);
      case Listed(names) => probes := names;
      case Absent =>
        var single := if node.probe.Given? then node.probe.name else inherited.probe;
        if single != "" {
          probes := [single];
        }
    }
    var interval := inherited.interval;
    match node.interval {
      case NotANumber => return Err(BadInterval);
      case Seconds(value) => interval := value;
      case Unset =>
    }
    if !OrEmpty(node.options).Mapping? {
      return Err(BadOptions);
    }
    var options := DeepMerge(inherited.options.entries, OrEmpty(node.options).entries);
    r := Ok((probes, Inherited(if |probes| == 1 then probes[0] else inherited.probe, interval, Mapping(options),
                               if node.enabled.Some? then node.enabled.value else inherited.enabled)));
  }

  /** The targets of one node with a host. */
  method Measured(node: Node, path: seq<string>, probes: seq<string>, current: Inherited, ghost above: seq<Node>,
                  ghost root: Inherited)
    returns (r: Result<seq<Spec>, ConfigError>)
    requires node.Node? && path == PathOf(above)
    requires var chain := above + [node]; probes == ProbesOf(chain, root) && current == HandedDown(chain, root)
    requires current.options.Mapping?
    ensures r.Err? <==> exists p | p in probes :: !PerProbe(node, p).Mapping?
    ensures r == if exists p | p in probes :: !PerProbe(node, p).Mapping? then Err(BadOptions)
                 else Ok(SpecsFor(above + [node], root, probes))
    ensures r.Ok? ==> forall t | t in r.value :: t.options.Mapping?
  {
    ghost var chain := above + [node];
    assert chain[..|chain| - 1] == above;
    var specs: seq<Spec> := [];
    var group := GroupOf(path);
    for i := 0 to |probes|
      invariant specs == SpecsFor(chain, root, probes)[..i]
      invariant forall j | 0 <= j < i :: PerProbe(node, probes[j]).Mapping?
      invariant forall t | t in specs :: t.options.Mapping?
    {
      var own := PerProbe(node, probes[i]);
      if !own.Mapping? {
        return Err(BadOptions);
      }
      var options := DeepMerge(current.options.entries, own.entries);
      specs := specs + [Spec(node.name, group, node.host, probes[i], current.interval, Mapping(options),
                             current.enabled)];
    }
    assert specs == SpecsFor(chain, root, probes);
    assert forall p | p in probes :: PerProbe(node, p).Mapping?;
    r := Ok(specs);
  }

  /** The part of _walk_target before the children: the node's own targets. */
  method OwnSpecs(node: Node, path: seq<string>, inherited: Inherited, ghost above: seq<Node>, ghost root: Inherited)
    returns (r: Result<(seq<Spec>, Inherited), ConfigError>)
    requires inherited == HandedDown(above, root) && inherited.options.Mapping? && path == PathOf(above)
    ensures var chain := above + [node];
            match r
            case Err(e) => Fault(chain, root) == Some(e)
            case Ok((specs, current)) =>
              && specs == SpecsOf(chain, root) && current == HandedDown(chain, root) && current.options.Mapping?
              && (forall t | t in specs :: t.options.Mapping?)
              && node.Node? && path + [node.name] == PathOf(chain)
              && (Fault(chain, root).Some? ==> node.children.NotAList? || node.children.nodes == [])
              && (node.children.NotAList? ==> Fault(chain, root) == Some(ChildrenNotAList))
              && (node.children == Nodes([]) ==>
                    Fault(chain, root) == if node.host == "" then Some(NothingToMeasure) else None)
  {
    hide HandedDown, ProbesOf, SpecFor;
    ghost var chain := above + [node];
    assert chain[..|chain| - 1] == above && chain[|chain| - 1] == node;
    if node.NotAMapping? {
      return Err(NodeNotAMapping);
    }
    if node.name == "" {
      return Err(MissingName);
    }
    if '/' in node.name {
      return Err(SlashInName);
    }
    var resolved := Resolve(node, inherited, above, root);
    if resolved.Err? {
      return Err(resolved.error);
    }
    var (probes, current) := resolved.value;
    var specs: seq<Spec> := [];
    if node.host != "" {
      if probes == [] {
        return Err(NoProbe);
      }
      var measured := Measured(node, path, probes, current, above, root);
      if measured.Err? {
        return Err(measured.error);
      }
      specs := measured.value;
    }
    r := Ok((specs, current));
  }

  lemma WholeNode(node: Node, above: seq<Node>, root: Inherited)
    ensures var here := above + [node];
            var below := if node.Node? && node.children.Nodes? then ChainsOf(node.children.nodes, here) else [];
            Meaning(Chains(node, above), root) == Both(Meaning([here], root), Meaning(below, root))
    ensures ChainsOf([], above + [node]) == []
  {
    hide Meaning;
    var here: Chain := above + [node];
    var below := if node.Node? && node.children.Nodes? then ChainsOf(node.children.nodes, here) else [];
    MeaningOfConcat([here], below, root);
  }

  lemma NextChild(nodes: seq<Node>, i: nat, above: seq<Node>, root: Inherited)
    requires i < |nodes|
    ensures Meaning(ChainsOf(nodes[..i + 1], above), root)
            == Both(Meaning(ChainsOf(nodes[..i], above), root), Meaning(Chains(nodes[i], above), root))
  {
    hide Meaning;
    assert nodes[..i + 1][..i] == nodes[..i];
    MeaningOfConcat(ChainsOf(nodes[..i], above), Chains(nodes[i], above), root);
  }

  /** _walk_target computes the meaning of the tree below a node. */
  method WalkTarget(node: Node, path: seq<string>, inherited: Inherited, ghost above: seq<Node>, ghost root: Inherited)
    returns (r: Result<seq<Spec>, ConfigError>)
    requires inherited == HandedDown(above, root) && inherited.options.Mapping? && path == PathOf(above)
    ensures r == Meaning(Chains(node, above), root)
    ensures r.Ok? ==> forall t | t in r.value :: t.options.Mapping?
    decreases node
  {
    hide HandedDown, SpecsOf, Fault, Meaning, PathOf, Chains, ChainsOf;
    ghost var here: Chain := above + [node];
    MeaningOfOne(here, root);
    var own := OwnSpecs(node, path, inherited, above, root);
    WholeNode(node, above, root);
    if own.Err? {
      return Err(own.error);
    }
    var (specs, current) := own.value;
    match node.children {
      case NotAList => return Err(ChildrenNotAList);
      case Nodes(nodes) =>
        assert nodes[..0] == [];
        for i := 0 to |nodes|
          invariant Meaning(ChainsOf(nodes[..i], here), root).Ok?
          invariant forall t | t in specs :: t.options.Mapping?
          invariant specs == SpecsOf(here, root) + Meaning(ChainsOf(nodes[..i], here), root).value
        {
          NextChild(nodes, i, here, root);
          var child := WalkTarget(nodes[i], path + [node.name], current, here, root);
          if child.Err? {
            RestOfChildren(nodes, i + 1, here, root);
            return Err(child.error);
          }
          specs := specs + child.value;
        }
        assert nodes[..|nodes|] == nodes;
        if node.host == "" && |nodes| == 0 {
          return Err(NothingToMeasure);
        }
        r := Ok(specs);
    }
  }

  /** A fault among the first children is the fault of all of them. */
  lemma {:induction false} RestOfChildren(nodes: seq<Node>, i: nat, above: seq<Node>, root: Inherited)
    requires i <= |nodes| && Meaning(ChainsOf(nodes[..i], above), root).Err?
    ensures Meaning(ChainsOf(nodes, above), root) == Meaning(ChainsOf(nodes[..i], above), root)
    decreases |nodes|
  {
    hide Meaning;
    if i == |nodes| {
      assert nodes[..i] == nodes;
    } else {
      var init := nodes[..|nodes| - 1];
      assert init[..i] == nodes[..i];
      RestOfChildren(init, i, above, root);
      MeaningOfConcat(ChainsOf(init, above), Chains(nodes[|nodes| - 1], above), root);
    }
  }
}
