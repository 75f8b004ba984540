/** The flat list of targets: unique keys, and the probe defaults folded in. */
module TargetList {
  import opened Wrappers
  import opened Merge
  import opened TargetTree

  // ---- keys ---------------------------------------------------------------------------------

  function RStrip(s: string): string {
    if s != "" && s[|s| - 1] == '/' then RStrip(s[..|s| - 1]) else s
  }

  /** TargetSpec.key */
  function KeyOf(spec: Spec): string {
    RStrip(spec.group) + "/" + spec.name + "#" + spec.probe
  }

  /** The group, the name and the probe, at the root and below it. */
  lemma KeyIs(spec: Spec)
    ensures spec.group == "/" ==> KeyOf(spec) == "/" + spec.name + "#" + spec.probe
    ensures spec.group != "" && spec.group[|spec.group| - 1] != '/' ==>
              KeyOf(spec) == spec.group + "/" + spec.name + "#" + spec.probe
  {
    assert RStrip("") == "" && "/"[..0] == "";
    assert RStrip("/") == "";
  }

  ghost predicate Distinct(specs: seq<Spec>) {
    forall i, j | 0 <= i < j < |specs| :: KeyOf(specs[i]) != KeyOf(specs[j])
  }

  /** The first key that is there already, if any. */
  ghost function FirstRepeated(specs: seq<Spec>): Option<string> {
    if specs == [] then None
    else
      var init, last := specs[..|specs| - 1], specs[|specs| - 1];
      match FirstRepeated(init)
      case Some(key) => Some(key)
      case None => if exists i | 0 <= i < |init| :: KeyOf(init[i]) == KeyOf(last) then Some(KeyOf(last)) else None
  }

  lemma {:induction false} RepeatedKeys(specs: seq<Spec>)
    ensures FirstRepeated(specs) == None <==> Distinct(specs)
    ensures FirstRepeated(specs).Some? ==>
              exists i, j :: 0 <= i < j < |specs| && KeyOf(specs[i]) == KeyOf(specs[j]) == FirstRepeated(specs).value
                             && Distinct(specs[..j])
  {
    hide KeyOf;
    if specs != [] {
      var n := |specs| - 1;
      var init := specs[..n];
      RepeatedKeys(init);
      assert forall i | 0 <= i < n :: init[i] == specs[i];
      if FirstRepeated(init).Some? {
        var i, j :| 0 <= i < j < n && KeyOf(init[i]) == KeyOf(init[j]) == FirstRepeated(init).value
                    && Distinct(init[..j]);
        assert specs[..j] == init[..j] && KeyOf(specs[i]) == KeyOf(specs[j]);
      } else if i :| 0 <= i < n && KeyOf(init[i]) == KeyOf(specs[n]) {
        assert specs[..n] == init && KeyOf(specs[i]) == KeyOf(specs[n]);
      }
    }
  }

  lemma {:induction false} RepetitionStays(specs: seq<Spec>, j: nat)
    requires j <= |specs| && FirstRepeated(specs[..j]).Some?
    ensures FirstRepeated(specs) == FirstRepeated(specs[..j])
    decreases |specs|
  {
    if j == |specs| {
      assert specs[..j] == specs;
    } else {
      var init := specs[..|specs| - 1];
      assert init[..j] == specs[..j];
      RepetitionStays(init, j);
    }
  }

  /** _check_unique */
  method CheckUnique(specs: seq<Spec>) returns (duplicate: Option<string>)
    ensures duplicate == FirstRepeated(specs)
    ensures duplicate == None <==> Distinct(specs)
  {
    hide KeyOf;
    RepeatedKeys(specs);
    var seen: set<string> := {};
    for j := 0 to |specs|
      invariant forall k :: k in seen <==> exists i :: 0 <= i < j && KeyOf(specs[i]) == k
      invariant FirstRepeated(specs[..j]) == None
    {
      var key := KeyOf(specs[j]);
      ghost var init := specs[..j];
      assert specs[..j + 1][..j] == init && forall i | 0 <= i < j :: init[i] == specs[i];
      if key in seen {
        ghost var i :| 0 <= i < j && KeyOf(specs[i]) == key;
        assert KeyOf(init[i]) == key;
        RepetitionStays(specs, j + 1);
        return Some(key);
      }
      seen := seen + {key};
    }
    assert specs[..|specs|] == specs;
    return None;
  }

  /** A string with a slash before each name. */
  function Slashed(path: seq<string>): string {
    if path == [] then "" else Slashed(path[..|path| - 1]) + "/" + path[|path| - 1]
  }

  ghost predicate PlainName(name: string) {
    name != "" && '/' !in name
  }

  ghost predicate PlainPath(path: seq<string>) {
    forall i | 0 <= i < |path| :: PlainName(path[i])
  }

  lemma {:induction false} SlashedFromFront(name: string, rest: seq<string>)
    ensures Slashed([name] + rest) == "/" + name + Slashed(rest)
  {
    var path := [name] + rest;
    if rest == [] {
      assert path[..0] == [];
    } else {
      var init := rest[..|rest| - 1];
      assert path[..|path| - 1] == [name] + init;
      SlashedFromFront(name, init);
    }
  }

  lemma {:induction false} SlashThenJoin(path: seq<string>)
    requires path != []
    ensures "/" + Join(path) == Slashed(path)
  {
    assert path == [path[0]] + path[1..];
    SlashedFromFront(path[0], path[1..]);
    if |path| > 1 {
      SlashThenJoin(path[1..]);
    }
  }

  /** A place in the tree: the names from the root to a node, and a probe. */
  datatype Place = Place(path: seq<string>, name: string, probe: string)

  ghost predicate PlainPlace(at: Place) {
    PlainPath(at.path) && PlainName(at.name)
  }

  function KeyAt(at: Place): string {
    Slashed(at.path + [at.name]) + "#" + at.probe
  }

  /** The group is the path of the ancestors, and the key spells the whole path and the probe. */
  lemma KeySpellsThePath(spec: Spec, path: seq<string>)
    requires PlainPath(path) && spec.group == GroupOf(path)
    ensures KeyOf(spec) == KeyAt(Place(path, spec.name, spec.probe))
  {
    SlashedOneMore(path, spec.name);
    if path == [] {
      assert RStrip("") == "" && "/"[..0] == "";
      assert RStrip("/") == "";
    } else {
      SlashThenJoin(path);
      var last := path[|path| - 1];
      var text := Slashed(path);
      assert text[|text| - 1] == last[|last| - 1] && last[|last| - 1] in last;
      assert PlainName(last);
    }
  }

  lemma SlashedOneMore(path: seq<string>, name: string)
    ensures Slashed(path + [name]) == Slashed(path) + "/" + name
  {
    assert (path + [name])[..|path|] == path;
  }

  /** A text is split in one way at the last occurrence of a character. */
  lemma SplitAtLast(a: string, x: string, b: string, y: string, c: char)
    requires c !in x && c !in y && a + [c] + x == b + [c] + y
    ensures a == b && x == y
  {
    var s := a + [c] + x;
    assert s[|a|] == c && s[|b|] == c;
    assert s[..|a|] == a && s[..|b|] == b;
    assert s[|a| + 1..] == x && s[|b| + 1..] == y;
  }

  lemma {:induction false} SlashedIsInjective(p: seq<string>, q: seq<string>)
    requires PlainPath(p) && PlainPath(q) && Slashed(p) == Slashed(q)
    ensures p == q
  {
    if p != [] && q != [] {
      var m, n := p[|p| - 1], q[|q| - 1];
      assert PlainName(m) && PlainName(n);
      SplitAtLast(Slashed(p[..|p| - 1]), m, Slashed(q[..|q| - 1]), n, '/');
      SlashedIsInjective(p[..|p| - 1], q[..|q| - 1]);
      assert p == p[..|p| - 1] + [m] && q == q[..|q| - 1] + [n];
    }
  }

  /** After each slash comes a name. */
  predicate NamesFollow(text: string) {
    forall i | 0 <= i < |text| && text[i] == '/' :: i + 1 < |text| && text[i + 1] != '/'
  }

  /** One probe name ends in '#' and the other, with text before that can be the end of a path. */
  predicate Clash(p: string, q: string) {
    exists k | 0 <= k < |q| :: q[k] == '#' && q[k + 1..] == p && NamesFollow(q[..k])
  }

  lemma {:induction false} SlashedNamesFollow(path: seq<string>)
    requires PlainPath(path)
    ensures NamesFollow(Slashed(path))
  {
    if path != [] {
      var init, name := path[..|path| - 1], path[|path| - 1];
      SlashedNamesFollow(init);
      assert PlainName(name);
      assert forall c | c in name :: c != '/';
      var text, before := Slashed(path), Slashed(init);
      assert forall j | 0 <= j < |name| :: text[|before| + 1 + j] == name[j] && name[j] in name;
      forall i | 0 <= i < |text| && text[i] == '/' ensures i + 1 < |text| && text[i + 1] != '/' {
        if i < |before| {
          assert text[i] == before[i] && text[i + 1] == before[i + 1];
        }
      }
    }
  }

  /** The longer of two probe names in equal keys ends in the other, after the end of a path. */
  lemma EqualKeysClash(a: Place, b: Place)
    requires PlainPlace(a) && PlainPlace(b) && KeyAt(a) == KeyAt(b) && |a.probe| < |b.probe|
    ensures Clash(a.probe, b.probe)
  {
    var x, y, p, q := Slashed(a.path + [a.name]), Slashed(b.path + [b.name]), a.probe, b.probe;
    var key, k := KeyAt(a), |q| - |p| - 1;
    assert key == x + "#" + p == y + "#" + q;
    assert key[|y| + 1..] == q && key[|x| + 1..] == p && key[|x|] == '#';
    assert |x| == |y| + 1 + k;
    assert q[k] == key[|y| + 1 + k];
    assert q[k + 1..] == p;
    SlashedNamesFollow(a.path + [a.name]);
    forall i | 0 <= i < k && q[i] == '/' ensures i + 1 < k && q[i + 1] != '/' {
      assert q[i] == key[|y| + 1 + i] == x[|y| + 1 + i];
      assert x[|y| + 1 + i + 1] == key[|y| + 1 + i + 1] == q[i + 1];
    }
    assert NamesFollow(q[..k]);
  }

  lemma SameProbeIdentifies(a: Place, b: Place)
    requires PlainPlace(a) && PlainPlace(b) && KeyAt(a) == KeyAt(b) && |a.probe| == |b.probe|
    ensures a == b
  {
    var x, y := Slashed(a.path + [a.name]), Slashed(b.path + [b.name]);
    var key := KeyAt(a);
    assert |x| == |y|;
    assert key[..|x|] == x && key[..|y|] == y && key[|x| + 1..] == a.probe && key[|y| + 1..] == b.probe;
    SlashedIsInjective(a.path + [a.name], b.path + [b.name]);
    assert (a.path + [a.name])[..|a.path|] == a.path && (b.path + [b.name])[..|b.path|] == b.path;
    assert (a.path + [a.name])[|a.path|] == a.name && (b.path + [b.name])[|b.path|] == b.name;
  }

  /** Text in which a name follows each slash, cut at its slashes: the part before the first one and
      the names after. */
  function Cut(text: string): (string, seq<string>) {
    if text == "" then ("", [])
    else
      var (head, names) := Cut(text[..|text| - 1]);
      var c := text[|text| - 1];
      if c == '/' then (head, names + [""])
      else if names == [] then (head + [c], [])
      else (head, names[..|names| - 1] + [names[|names| - 1] + [c]])
  }

  lemma LongerLastName(names: seq<string>, c: char)
    requires names != []
    ensures var n := |names| - 1;
            Slashed(names[..n] + [names[n] + [c]]) == Slashed(names) + [c]
  {
    var n := |names| - 1;
    SlashedOneMore(names[..n], names[n] + [c]);
  }

  lemma {:induction false} CutJoins(text: string)
    ensures var (head, names) := Cut(text);
            && '/' !in head && head + Slashed(names) == text
            && (forall i | 0 <= i < |names| :: '/' !in names[i])
            && (names != [] ==> (names[|names| - 1] == "" <==> text[|text| - 1] == '/'))
            && (text == "" ==> names == [])
  {
    hide Slashed;
    NothingSlashed();
    if text != "" {
      var init, c := text[..|text| - 1], text[|text| - 1];
      CutJoins(init);
      var (head, names) := Cut(init);
      assert text == init + [c];
      if c == '/' {
        SlashedOneMore(names, "");
      } else if names != [] {
        LongerLastName(names, c);
      }
    }
  }

  lemma {:induction false} CutIsPlain(text: string)
    requires NamesFollow(text)
    ensures PlainPath(Cut(text).1)
  {
    CutIsPlainButLast(text);
    CutJoins(text);
    assert text == "" || text[|text| - 1] != '/';
  }

  lemma {:induction false} CutIsPlainButLast(text: string)
    requires forall i | 0 <= i < |text| - 1 && text[i] == '/' :: text[i + 1] != '/'
    ensures forall i | 0 <= i < |Cut(text).1| - 1 :: PlainName(Cut(text).1[i])
  {
    if text != "" {
      var init := text[..|text| - 1];
      CutIsPlainButLast(init);
      CutJoins(init);
      CutJoins(text);
      var (_, names) := Cut(init);
      if text[|text| - 1] == '/' && names != [] {
        assert init[|init| - 1] == text[|text| - 2];
        assert PlainName(names[|names| - 1]);
      }
    }
  }

  /** Where probe names clash, two places share a key: the end of the longer name moves into the path. */
  lemma ClashCollides(p: string, q: string) returns (a: Place, b: Place)
    requires Clash(p, q)
    ensures PlainPlace(a) && PlainPlace(b) && a.probe == p && b.probe == q && a != b && KeyAt(a) == KeyAt(b)
  {
    hide Slashed, KeyAt, Cut, NamesFollow, PlainName;
    var k :| 0 <= k < |q| && q[k] == '#' && q[k + 1..] == p && NamesFollow(q[..k]);
    var w := q[..k];
    var (head, names) := Cut(w);
    CutJoins(w);
    CutIsPlain(w);
    var first := "n#" + head;
    PlainStart(head);
    SplitAtHash(q, k);
    a, b := Moved(first, names, p), Place([], "n", q);
    FirstIsPlain(first, names);
    assert a.path + [a.name] == [first] + names;
    KeysMeet(w, p, head, names, a, b);
  }

  lemma PlainStart(head: string)
    requires '/' !in head
    ensures PlainName("n#" + head) && PlainName("n")
  {
  }

  lemma SplitAtHash(q: string, k: nat)
    requires k < |q| && q[k] == '#'
    ensures q == q[..k] + "#" + q[k + 1..]
  {
  }

  /** The place at the end of a path of names. */
  function Moved(first: string, names: seq<string>, probe: string): Place {
    var all := [first] + names;
    Place(all[..|all| - 1], all[|all| - 1], probe)
  }

  lemma FirstIsPlain(first: string, names: seq<string>)
    requires PlainName(first) && PlainPath(names)
    ensures forall probe :: PlainPlace(Moved(first, names, probe))
  {
    hide PlainName;
    var all := [first] + names;
    forall i | 0 <= i < |all| ensures PlainName(all[i]) {
      assert i > 0 ==> all[i] == names[i - 1];
    }
  }

  lemma KeysMeet(w: string, p: string, head: string, names: seq<string>, a: Place, b: Place)
    requires head + Slashed(names) == w
    requires a.path + [a.name] == ["n#" + head] + names && a.probe == p
    requires b == Place([], "n", w + "#" + p)
    ensures KeyAt(a) == KeyAt(b)
  {
    hide Slashed;
    SlashedFromFront("n#" + head, names);
    SlashedFromFront("n", []);
    NothingSlashed();
    assert b.path + [b.name] == ["n"] + [];
    assert "/" + ("n#" + head) + Slashed(names) == "/n#" + w;
    assert KeyAt(a) == "/n#" + w + "#" + p;
    assert KeyAt(b) == "/n" + "#" + (w + "#" + p);
  }

  lemma NothingSlashed()
    ensures Slashed([]) == ""
  {
  }

  /** Keys identify the places of a tree whose probe names are from a set if and only if no two of
      those names clash. */
  lemma KeysIdentify(probes: set<string>)
    ensures (forall a, b | PlainPlace(a) && PlainPlace(b) && a.probe in probes && b.probe in probes
                           && KeyAt(a) == KeyAt(b) :: a == b)
            <==> (forall p, q | p in probes && q in probes :: !Clash(p, q))
  {
    if forall p, q | p in probes && q in probes :: !Clash(p, q) {
      forall a, b | PlainPlace(a) && PlainPlace(b) && a.probe in probes && b.probe in probes && KeyAt(a) == KeyAt(b)
        ensures a == b
      {
        if |a.probe| < |b.probe| {
          EqualKeysClash(a, b);
        } else if |b.probe| < |a.probe| {
          EqualKeysClash(b, a);
        } else {
          SameProbeIdentifies(a, b);
        }
      }
    }
    if p, q :| p in probes && q in probes && Clash(p, q) {
      var a, b := ClashCollides(p, q);
    }
  }

  /** For targets: with probe names that do not clash, equal keys are one place and one probe. */
  lemma KeysTellApart(probes: set<string>, a: Spec, p: seq<string>, b: Spec, q: seq<string>)
    requires forall x, y | x in probes && y in probes :: !Clash(x, y)
    requires a.probe in probes && PlainPath(p) && PlainName(a.name) && a.group == GroupOf(p)
    requires b.probe in probes && PlainPath(q) && PlainName(b.name) && b.group == GroupOf(q)
    ensures KeyOf(a) == KeyOf(b) <==> p == q && a.name == b.name && a.probe == b.probe
  {
    hide KeyOf, KeyAt, GroupOf, Clash;
    KeySpellsThePath(a, p);
    KeySpellsThePath(b, q);
    KeysIdentify(probes);
    assert PlainPlace(Place(p, a.name, a.probe)) && PlainPlace(Place(q, b.name, b.probe));
  }

  // ---- defaults --------------------------------------------------------------------------------

  /** probe_defaults of a probe; missing and empty ones are left out of the map. */
  function DefaultsFor(defaults: map<string, Value>, probe: string): Value {
    if probe in defaults then defaults[probe] else EMPTY
  }

  function WithDefaults(spec: Spec, defaults: map<string, Value>): Spec {
    spec.(options := Overlay(DefaultsFor(defaults, spec.probe), spec.options))
  }

  function AllWithDefaults(specs: seq<Spec>, defaults: map<string, Value>): (r: seq<Spec>)
    ensures |r| == |specs| && forall i | 0 <= i < |r| :: r[i] == WithDefaults(specs[i], defaults)
  {
    seq(|specs|, i requires 0 <= i < |specs| => WithDefaults(specs[i], defaults))
  }

  /** The first probe whose defaults are no mapping, if any. */
  function FirstBad(specs: seq<Spec>, defaults: map<string, Value>): Option<string> {
    if specs == [] then None
    else if !DefaultsFor(defaults, specs[0].probe).Mapping? then Some(specs[0].probe)
    else FirstBad(specs[1..], defaults)
  }

  lemma {:induction false} FirstBadAt(specs: seq<Spec>, defaults: map<string, Value>, k: nat)
    requires k <= |specs| && forall j | 0 <= j < k :: DefaultsFor(defaults, specs[j].probe).Mapping?
    requires k < |specs| ==> !DefaultsFor(defaults, specs[k].probe).Mapping?
    ensures FirstBad(specs, defaults) == if k < |specs| then Some(specs[k].probe) else None
  {
    if k > 0 {
      FirstBadAt(specs[1..], defaults, k - 1);
    }
  }

  /** _apply_probe_defaults, in place. It stops at the first probe whose defaults are no mapping. */
  method ApplyProbeDefaults(targets: array<Spec>, defaults: map<string, Value>) returns (e: Option<ConfigError>)
    requires forall i | 0 <= i < targets.Length :: targets[i].options.Mapping?
    modifies targets
    ensures e == match FirstBad(old(targets[..]), defaults) case None => None case Some(p) => Some(BadDefaults(p))
    ensures e == None <==> forall t | t in old(targets[..]) :: DefaultsFor(defaults, t.probe).Mapping?
    ensures e == None ==> targets[..] == AllWithDefaults(old(targets[..]), defaults)
    ensures e.Some? ==>
              exists k :: 0 <= k < targets.Length && e == Some(BadDefaults(old(targets[k].probe)))
                          && targets[..k] == AllWithDefaults(old(targets[..k]), defaults)
                          && targets[k..] == old(targets[k..])
                          && !DefaultsFor(defaults, old(targets[k].probe)).Mapping?
  {
    hide Overlay;
    for i := 0 to targets.Length
      invariant targets[..i] == AllWithDefaults(old(targets[..i]), defaults)
      invariant targets[i..] == old(targets[i..])
      invariant forall j | 0 <= j < i :: DefaultsFor(defaults, old(targets[j].probe)).Mapping?
    {
      var target := targets[i];
      assert target == old(targets[i..])[0] == old(targets[i]);
      assert target in old(targets[..]);
      var own := DefaultsFor(defaults, target.probe);
      if !own.Mapping? {
        FirstBadAt(old(targets[..]), defaults, i);
        return Some(BadDefaults(target.probe));
      }
      var options := DeepMerge(own.entries, target.options.entries);
      targets[i] := target.(options := Mapping(options));
      assert old(targets[..i + 1]) == old(targets[..i]) + [target];
      assert targets[i + 1..] == old(targets[i..])[1..];
    }
    FirstBadAt(old(targets[..]), defaults, targets.Length);
    return None;
  }

  // ---- the whole list ----------------------------------------------------------------------------

  /** The root of inheritance: no options, everything enabled. */
  function RootOf(probe: string, interval: real): Inherited {
    Inherited(probe, interval, EMPTY, true)
  }

  /** The targets the tree means, before the defaults. */
  function Flat(nodes: seq<Node>, root: Inherited): Result<seq<Spec>, ConfigError> {
    Meaning(ChainsOf(nodes, []), root)
  }

  ghost predicate Accepted(nodes: seq<Node>, root: Inherited, defaults: map<string, Value>) {
    && nodes != []
    && Flat(nodes, root).Ok?
    && Distinct(Flat(nodes, root).value)
    && forall t | t in Flat(nodes, root).value :: DefaultsFor(defaults, t.probe).Mapping?
  }

  /** What becomes of a configured tree: its targets with the defaults, or the first complaint. */
  ghost function Parsed(nodes: seq<Node>, root: Inherited, defaults: map<string, Value>)
    : Result<seq<Spec>, ConfigError>
  {
    if nodes == [] then Err(NoTargets)
    else
      match Flat(nodes, root)
      case Err(e) => Err(e)
      case Ok(specs) =>
        match FirstRepeated(specs)
        case Some(key) => Err(Duplicate(key))
        case None =>
          match FirstBad(specs, defaults)
          case Some(probe) => Err(BadDefaults(probe))
          case None => Ok(AllWithDefaults(specs, defaults))
  }

  /** The first probe whose defaults are no mapping is that of the first target with such a probe. */
  lemma {:induction false} FirstBadIsFirst(specs: seq<Spec>, defaults: map<string, Value>)
    ensures match FirstBad(specs, defaults)
            case None => forall t | t in specs && t.probe in defaults :: defaults[t.probe].Mapping?
            case Some(p) =>
              exists k ::
                && 0 <= k < |specs| && specs[k].probe == p && p in defaults && !defaults[p].Mapping?
                && forall j | 0 <= j < k && specs[j].probe in defaults :: defaults[specs[j].probe].Mapping?
  {
    if specs != [] {
      FirstBadIsFirst(specs[1..], defaults);
      if specs[0].probe !in defaults || defaults[specs[0].probe].Mapping? {
        if FirstBad(specs[1..], defaults).Some? {
          var rest := specs[1..];
          var k :| 0 <= k < |rest| && rest[k].probe == FirstBad(rest, defaults).value
                   && forall j | 0 <= j < k && rest[j].probe in defaults :: defaults[rest[j].probe].Mapping?;
          assert specs[k + 1] == rest[k];
          assert forall j | 0 < j < k + 1 :: specs[j] == rest[j - 1];
        }
        assert specs == [specs[0]] + specs[1..];
      } else {
        assert specs[0].probe == FirstBad(specs, defaults).value;
      }
    }
  }

  /** Why a tree is refused: it is empty, a node is at fault, two keys are equal, or defaults are no mapping;
      in that order. Otherwise its targets get their probes' defaults under their own options. */
  lemma ParsedExactlyIf(nodes: seq<Node>, root: Inherited, defaults: map<string, Value>)
    ensures var parsed, flat := Parsed(nodes, root, defaults), Flat(nodes, root);
            var apart := flat.Ok? && Distinct(flat.value);
            var good := apart && forall t | t in flat.value && t.probe in defaults :: defaults[t.probe].Mapping?;
            && (nodes == [] <==> parsed == Err(NoTargets))
            && (nodes != [] && flat.Err? ==> parsed == Err(flat.error))
            && (nodes != [] && flat.Ok? && !apart ==> parsed.Err? && parsed.error.Duplicate?)
            && (nodes != [] && apart && !good ==> parsed.Err? && parsed.error.BadDefaults?)
            && (nodes != [] && good ==>
                  && parsed.Ok? && |parsed.value| == |flat.value|
                  && forall i | 0 <= i < |flat.value| ::
                       var spec := flat.value[i];
                       var own := if spec.probe in defaults then defaults[spec.probe] else Mapping(map[]);
                       parsed.value[i] == spec.(options := Overlay(own, spec.options)))
    ensures Flat(nodes, root) != Err(NoTargets)
  {
    hide KeyOf, Overlay, FirstRepeated, FirstBad, Meaning;
    FlatHasTargets(nodes, root);
    var flat := Flat(nodes, root);
    if flat.Ok? {
      RepeatedKeys(flat.value);
      FirstBadIsFirst(flat.value, defaults);
    }
  }

  /** No node is at fault for there being none. */
  lemma FlatHasTargets(nodes: seq<Node>, root: Inherited)
    ensures Flat(nodes, root) != Err(NoTargets)
  {
    hide Fault;
    var chains := ChainsOf(nodes, []);
    FirstFaultIsFirst(chains, root);
    if FirstFault(chains, root).Some? {
      var k :| 0 <= k < |chains| && Fault(chains[k], root) == FirstFault(chains, root);
      FaultIsOfNode(chains[k], root);
    }
  }

  lemma FaultIsOfNode(chain: Chain, root: Inherited)
    ensures Fault(chain, root) != Some(NoTargets)
  {
  }

  /** The targets part of parse_agent_config. */
  method ParseTargets(nodes: seq<Node>, probe: string, interval: real, defaults: map<string, Value>)
    returns (r: Result<seq<Spec>, ConfigError>)
    ensures r == Parsed(nodes, RootOf(probe, interval), defaults)
    ensures r.Ok? <==> Accepted(nodes, RootOf(probe, interval), defaults)
    ensures r.Ok? ==> r.value == AllWithDefaults(Flat(nodes, RootOf(probe, interval)).value, defaults)
  {
    hide Meaning, Chains, HandedDown, KeyOf, Overlay, FirstRepeated, FirstBad;
    ghost var root := RootOf(probe, interval);
    if nodes == [] {
      return Err(NoTargets);
    }
    RootIsHandedDown(root);
    var specs: seq<Spec> := [];
    for i := 0 to |nodes|
      invariant Flat(nodes[..i], root) == Ok(specs)
      invariant forall t | t in specs :: t.options.Mapping?
    {
      assert nodes[..i + 1][..i] == nodes[..i];
      MeaningOfConcat(ChainsOf(nodes[..i], []), Chains(nodes[i], []), root);
      var walked := WalkTarget(nodes[i], [], RootOf(probe, interval), [], root);
      if walked.Err? {
        RestOfChildren(nodes, i + 1, [], root);
        return Err(walked.error);
      }
      specs := specs + walked.value;
    }
    assert nodes[..|nodes|] == nodes;
    var duplicate := CheckUnique(specs);
    if duplicate.Some? {
      return Err(Duplicate(duplicate.value));
    }
    var targets := new Spec[|specs|](i requires 0 <= i < |specs| => specs[i]);
    assert targets[..] == specs;
    var failed := ApplyProbeDefaults(targets, defaults);
    if failed.Some? {
      return Err(failed.value);
    }
    r := Ok(targets[..]);
  }

  lemma RootIsHandedDown(root: Inherited)
    ensures HandedDown([], root) == root && Meaning(ChainsOf([], []), root) == Ok([])
  {
  }

  /** Two nodes side by side, each measured by one probe. */
  const CLASHING := [
    Node("a#b", Listed(["c"]), Inherit, Unset, None, None, "host", map[], Nodes([])),
    Node("a", Listed(["b#c"]), Inherit, Unset, None, None, "host", map[], Nodes([]))
  ]

  lemma LeafMeaning(node: Node, probe: string, root: Inherited)
    requires node.Node? && node.probes == Listed([probe]) && PlainName(node.name) && node.host != ""
    requires node.interval == Unset && node.options == None && node.own == map[] && node.children == Nodes([])
    ensures exists spec: Spec :: Meaning(Chains(node, []), root) == Ok([spec])
                           && spec.group == "/" && spec.name == node.name && spec.probe == probe
  {
    hide Meaning;
    var chain: Chain := [node];
    assert [] + [node] == chain && chain[..0] == [];
    assert Chains(node, []) == [chain];
    MeaningOfOne(chain, root);
    assert ProbesOf(chain, root) == [probe];
    assert Fault(chain, root) == None;
    assert SpecsOf(chain, root) == [SpecFor(chain, root, probe)];
    var spec := SpecFor(chain, root, probe);
    assert PathOf([]) == [];
  }

  /** They are different targets of different probes, and the tree is refused as holding one twice. */
  lemma ClashIsRefused(root: Inherited, defaults: map<string, Value>)
    ensures Parsed(CLASHING, root, defaults) == Err(Duplicate("/a#b#c"))
  {
    hide Meaning, Chains, ChainsOf, KeyOf;
    var s, t := FlatClash(root);
    SameKey(s, t);
    RepeatedPair(s, t);
  }

  lemma FlatClash(root: Inherited) returns (s: Spec, t: Spec)
    ensures Flat(CLASHING, root) == Ok([s, t])
    ensures s.group == "/" && s.name == "a#b" && s.probe == "c"
    ensures t.group == "/" && t.name == "a" && t.probe == "b#c"
  {
    hide Meaning, Chains;
    var x, y := CLASHING[0], CLASHING[1];
    LeafMeaning(x, "c", root);
    LeafMeaning(y, "b#c", root);
    s :| Meaning(Chains(x, []), root) == Ok([s]) && s.group == "/" && s.name == "a#b" && s.probe == "c";
    t :| Meaning(Chains(y, []), root) == Ok([t]) && t.group == "/" && t.name == "a" && t.probe == "b#c";
    MeaningOfTwo(x, y, s, t, root);
    assert CLASHING == [x, y];
  }

  lemma MeaningOfTwo(x: Node, y: Node, s: Spec, t: Spec, root: Inherited)
    requires Meaning(Chains(x, []), root) == Ok([s]) && Meaning(Chains(y, []), root) == Ok([t])
    ensures Flat([x, y], root) == Ok([s, t])
  {
    hide Meaning, Chains;
    RootIsHandedDown(root);
    assert [x, y][..1] == [x] && [x][..0] == [];
    MeaningOfConcat(ChainsOf([], []), Chains(x, []), root);
    MeaningOfConcat(ChainsOf([x], []), Chains(y, []), root);
    assert [] + [s] == [s] && [s] + [t] == [s, t];
  }

  lemma RepeatedPair(s: Spec, t: Spec)
    requires KeyOf(s) == KeyOf(t)
    ensures FirstRepeated([s, t]) == Some(KeyOf(t))
  {
    hide KeyOf;
    assert [s, t][..1] == [s] && [s][..0] == [];
    assert FirstRepeated([s]) == None;
    assert KeyOf([s][0]) == KeyOf(t);
  }

  lemma SameKey(s: Spec, t: Spec)
    requires s.group == "/" && s.name == "a#b" && s.probe == "c"
    requires t.group == "/" && t.name == "a" && t.probe == "b#c"
    ensures KeyOf(s) == KeyOf(t) == "/a#b#c"
  {
    assert RStrip("/") == RStrip("/"[..0]) == "";
  }

  /** The options a target ends up with: the defaults, then the ancestors from the outside in, then
      the node's own, then those of the probe. */
  function LayersFor(chain: Chain, probe: string): seq<Value> {
    OptionLayers(chain) + [PerProbe(chain[|chain| - 1], probe)]
  }

  /** They are the documented precedence, each layer over the ones before it, if and only if what a
      layer dropped of the defaults is overridden again. */
  lemma FinalOptions(chain: Chain, probe: string, root: Inherited, defaults: map<string, Value>)
    requires chain[|chain| - 1].Node? && root.options == EMPTY
    ensures var own, layers := DefaultsFor(defaults, probe), LayersFor(chain, probe);
            var options := WithDefaults(SpecFor(chain, root, probe), defaults).options;
            && options == DefaultsLast(own, layers)
            && (options == Layered(own, layers) <==> forall path :: Restored(own, layers, path))
  {
    hide Overlay, Restored;
    var own, layers := DefaultsFor(defaults, probe), LayersFor(chain, probe);
    LayersOver(EMPTY, OptionLayers(chain), PerProbe(chain[|chain| - 1], probe));
    DefaultsLastExactlyIf(own, layers);
  }

  /** A target whose group switches off what the defaults set, and which sets it up anew. */
  const OFF_AND_ON: Chain := [
    Node("kr", Absent, Inherit, Unset, Some(Keyed("http", Scalar("off"))), None, "", map[], Nodes([])),
    Node("dns", Absent, Given("curl"), Unset, Some(Keyed("http", Keyed("y", Scalar("2")))), None, "host", map[],
         Nodes([]))
  ]

  const HTTP_DEFAULTS := map["curl" := Keyed("http", Keyed("x", Scalar("1")))]

  /** It gets the default back that its group had switched off. */
  lemma DefaultsComeBack(root: Inherited)
    requires root.options == EMPTY
    ensures var own, layers := DefaultsFor(HTTP_DEFAULTS, "curl"), LayersFor(OFF_AND_ON, "curl");
            var options := WithDefaults(SpecFor(OFF_AND_ON, root, "curl"), HTTP_DEFAULTS).options;
            && options == Keyed("http", Mapping(map["x" := Scalar("1"), "y" := Scalar("2")]))
            && Layered(own, layers) == Keyed("http", Keyed("y", Scalar("2")))
  {
    hide Overlay;
    var own, layers := DefaultsFor(HTTP_DEFAULTS, "curl"), LayersFor(OFF_AND_ON, "curl");
    var off, x, y := Scalar("off"), Keyed("x", Scalar("1")), Keyed("y", Scalar("2"));
    TwoLayers(OFF_AND_ON);
    assert layers == [Keyed("http", off), Keyed("http", y), EMPTY];
    FinalOptions(OFF_AND_ON, "curl", root, HTTP_DEFAULTS);
    ThreeLayers(EMPTY, Keyed("http", off), Keyed("http", y));
    ThreeLayers(own, Keyed("http", off), Keyed("http", y));
    EmptyIsNeutral(Keyed("http", off));
    OverlayUnderKey("http", x, off);
    OverlayUnderKey("http", off, y);
    OverlayUnderKey("http", x, y);
    ReplacedScalar(x, off, y);
  }

  lemma ReplacedScalar(x: Value, off: Value, y: Value)
    requires !off.Mapping?
    ensures Overlay(x, off) == off && Overlay(off, y) == y
    ensures x == Keyed("x", Scalar("1")) && y == Keyed("y", Scalar("2")) ==>
              Overlay(x, y) == Mapping(map["x" := Scalar("1"), "y" := Scalar("2")])
  {
    if x == Keyed("x", Scalar("1")) && y == Keyed("y", Scalar("2")) {
      assert Overlay(x, y).entries == map["x" := Scalar("1"), "y" := Scalar("2")];
    }
  }

  lemma TwoLayers(chain: Chain)
    requires |chain| == 2
    ensures OptionLayers(chain) == [OwnOptions(chain[0]), OwnOptions(chain[1])]
  {
    assert chain[..1][..0] == [];
    assert OptionLayers(chain[..1]) == [OwnOptions(chain[0])];
  }

  lemma ThreeLayers(base: Value, a: Value, b: Value)
    requires base.Mapping? && a.Mapping? && b.Mapping?
    ensures Layered(base, [a, b, EMPTY]) == Overlay(Overlay(base, a), b)
  {
    var none: seq<Value> := [];
    LayersOver(base, none, a);
    LayersOver(base, [a], b);
    LayersOver(base, [a, b], EMPTY);
    assert none + [a] == [a] && [a] + [b] == [a, b] && [a, b] + [EMPTY] == [a, b, EMPTY];
    OverlayEntries(base, a);
    OverlayEntries(Overlay(base, a), b);
    hide Overlay;
    EmptyIsNeutral(Overlay(Overlay(base, a), b));
  }

  // ---- the nearest node wins ------------------------------------------------------------------------

  /** Interval, enabled flag and probe come from the nearest node that sets them. */
  lemma {:induction false} NearestNodeWins(chain: seq<Node>, root: Inherited, k: nat)
    requires k < |chain| && chain[k].Node?
    requires forall j | 0 <= j < |chain| :: chain[j].Node?
    ensures chain[k].interval.Seconds? && (forall j | k < j < |chain| :: !chain[j].interval.Seconds?) ==>
              IntervalOf(chain, root) == chain[k].interval.value
    ensures chain[k].enabled.Some? && (forall j | k < j < |chain| :: chain[j].enabled.None?) ==>
              EnabledOf(chain, root) == chain[k].enabled.value
    ensures Single(chain[k]).Some? && (forall j | k < j < |chain| :: Single(chain[j]).None?) ==>
              ProbeOf(chain, root) == Single(chain[k]).value
  {
    if k < |chain| - 1 {
      var init := chain[..|chain| - 1];
      NearestNodeWins(init, root, k);
      assert forall j | k < j < |init| :: init[j] == chain[j];
    }
  }

  lemma {:induction false} NoNodeSetsIt(chain: seq<Node>, root: Inherited)
    requires forall j | 0 <= j < |chain| :: chain[j].Node?
    ensures (forall j | 0 <= j < |chain| :: !chain[j].interval.Seconds?) ==> IntervalOf(chain, root) == root.interval
    ensures (forall j | 0 <= j < |chain| :: chain[j].enabled.None?) ==> EnabledOf(chain, root) == root.enabled
    ensures (forall j | 0 <= j < |chain| :: Single(chain[j]).None?) ==> ProbeOf(chain, root) == root.probe
  {
    if chain != [] {
      var init := chain[..|chain| - 1];
      NoNodeSetsIt(init, root);
      assert forall j | 0 <= j < |init| :: init[j] == chain[j];
    }
  }
}
