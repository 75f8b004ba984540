/** Nested configuration mappings and how one is merged onto another. */
module Merge {
  import opened Wrappers

  /** `Scalar` stands for every value that is neither a list nor a mapping. */
  datatype Value = Scalar(text: string) | Listing(items: seq<Value>) | Mapping(entries: map<string, Value>)

  const EMPTY := Mapping(map[])

  /** A value with another one laid over it: mappings are merged key by key, anything else is replaced. */
  function Overlay(base: Value, over: Value): Value
    decreases over
  {
    if base.Mapping? && over.Mapping? then
      var a, b := base.entries, over.entries;
      Mapping(map k | k in a.Keys + b.Keys ::
                if k !in b then a[k] else if k !in a then b[k] else Overlay(a[k], b[k]))
    else over
  }

  /** The value of one key once it has been merged. */
  function Merged(base: map<string, Value>, over: map<string, Value>, key: string): Value
    requires key in over
  {
    if key in base then Overlay(base[key], over[key]) else over[key]
  }

  ghost predicate MergedUpTo(result: map<string, Value>, base: map<string, Value>, over: map<string, Value>,
                             todo: set<string>)
  {
    && result.Keys == base.Keys + (over.Keys - todo)
    && (forall k | k in result && (k !in over || k in todo) :: result[k] == base[k])
    && (forall k | k in result && k in over && k !in todo :: result[k] == Merged(base, over, k))
  }

  lemma MergedAll(result: map<string, Value>, base: map<string, Value>, over: map<string, Value>)
    requires MergedUpTo(result, base, over, {})
    ensures Mapping(result) == Overlay(Mapping(base), Mapping(over))
  {
    assert result == Overlay(Mapping(base), Mapping(over)).entries;
  }

  lemma MergedOne(base: Value, value: Value)
    ensures !(base.Mapping? && value.Mapping?) ==> Overlay(base, value) == value
  {
  }

  /** deep_merge: a copy of the base, updated key by key. */
  method DeepMerge(base: map<string, Value>, over: map<string, Value>) returns (result: map<string, Value>)
    ensures Mapping(result) == Overlay(Mapping(base), Mapping(over))
    decreases Mapping(over)
  {
    hide Overlay;
    result := base;
    var todo := over.Keys;
    while todo != {}
      invariant todo <= over.Keys && MergedUpTo(result, base, over, todo)
      decreases |todo|
    {
      var key :| key in todo;
      var value := over[key];
      if key in result {
        MergedOne(result[key], value);
      }
      if key in result && result[key].Mapping? && value.Mapping? {
        var merged := DeepMerge(result[key].entries, value.entries);
        result := result[key := Mapping(merged)];
      } else {
        result := result[key := value];
      }
      todo := todo - {key};
    }
    MergedAll(result, base, over);
  }

  // ---- lookups ------------------------------------------------------------------------------

  /** The value at the end of a path of keys. */
  function At(v: Value, path: seq<string>): Option<Value> {
    if path == [] then Some(v)
    else if v.Mapping? && path[0] in v.entries then At(v.entries[path[0]], path[1..])
    else None
  }

  ghost predicate IsMapping(v: Option<Value>) {
    v.Some? && v.value.Mapping?
  }

  ghost predicate IsLeaf(v: Option<Value>) {
    v.Some? && !v.value.Mapping?
  }

  /** On its way down a path the value has something that is not a mapping. */
  ghost predicate Blocks(v: Value, path: seq<string>) {
    exists n | 0 <= n < |path| :: IsLeaf(At(v, path[..n]))
  }

  lemma BlocksBelow(v: Value, path: seq<string>)
    requires path != []
    ensures Blocks(v, path)
            <==> !v.Mapping? || (path[0] in v.entries && Blocks(v.entries[path[0]], path[1..]))
  {
    assert path[..0] == [];
    forall n | 0 < n < |path| ensures path[..n][0] == path[0] && path[..n][1..] == path[1..][..n - 1] {}
    if Blocks(v, path) && v.Mapping? {
      var n :| 0 <= n < |path| && IsLeaf(At(v, path[..n]));
      assert IsLeaf(At(v.entries[path[0]], path[1..][..n - 1]));
    }
    if v.Mapping? && path[0] in v.entries && Blocks(v.entries[path[0]], path[1..]) {
      var n :| 0 <= n < |path[1..]| && IsLeaf(At(v.entries[path[0]], path[1..][..n]));
      assert path[..n + 1][1..] == path[1..][..n];
      assert IsLeaf(At(v, path[..n + 1]));
    }
    if !v.Mapping? {
      assert IsLeaf(At(v, path[..0]));
    }
  }

  /** What a merged value has at a path: the override's value, merged with the base's where both have
      one; otherwise the base's, unless the override replaced something further up. */
  lemma {:induction false} LookupInOverlay(base: Value, over: Value, path: seq<string>)
    ensures At(Overlay(base, over), path)
            == match (At(base, path), At(over, path))
               case (Some(x), Some(y)) => Some(Overlay(x, y))
               case (None, Some(y)) => Some(y)
               case (Some(x), None) => if Blocks(over, path) then None else Some(x)
               case (None, None) => None
    decreases path
  {
    if path != [] {
      BlocksBelow(over, path);
      if base.Mapping? && over.Mapping? && path[0] in base.entries && path[0] in over.entries {
        LookupInOverlay(base.entries[path[0]], over.entries[path[0]], path[1..]);
      } else if base.Mapping? && over.Mapping? && path[0] in base.entries {
        assert At(Overlay(base, over), path) == At(base, path);
      }
    }
  }

  /** The override wins leaf by leaf: its leaves are in the result as they are, lists included. */
  lemma OverrideWins(base: Value, over: Value, path: seq<string>)
    requires IsLeaf(At(over, path))
    ensures At(Overlay(base, over), path) == At(over, path)
  {
    LookupInOverlay(base, over, path);
  }

  // ---- laws ----------------------------------------------------------------------------------

  lemma EmptyIsNeutral(v: Value)
    requires v.Mapping?
    ensures Overlay(EMPTY, v) == v && Overlay(v, EMPTY) == v
  {
    assert Overlay(EMPTY, v).entries == v.entries;
    assert Overlay(v, EMPTY).entries == v.entries;
  }

  lemma {:induction false} OverlayIsIdempotent(v: Value)
    ensures Overlay(v, v) == v
  {
    if v.Mapping? {
      forall k | k in v.entries ensures Overlay(v.entries[k], v.entries[k]) == v.entries[k] {
        OverlayIsIdempotent(v.entries[k]);
      }
      assert Overlay(v, v).entries == v.entries;
    }
  }

  /** Every key of the first is, at every depth, overridden by the second. */
  predicate Absorbs(c: Value, a: Value)
    decreases a
  {
    a.Mapping? && c.Mapping? ==> forall k | k in a.entries :: k in c.entries && Absorbs(c.entries[k], a.entries[k])
  }

  /** Nothing of the base is left exactly if the override absorbs it. */
  lemma {:induction false} NothingLeft(a: Value, c: Value)
    ensures Overlay(a, c) == c <==> Absorbs(c, a)
    decreases a
  {
    if a.Mapping? && c.Mapping? {
      forall k | k in a.entries && k in c.entries
        ensures Overlay(a.entries[k], c.entries[k]) == c.entries[k] <==> Absorbs(c.entries[k], a.entries[k])
      {
        NothingLeft(a.entries[k], c.entries[k]);
      }
      var merged := Overlay(a, c).entries;
      if Absorbs(c, a) {
        assert merged == c.entries;
      }
      if merged == c.entries {
        forall k | k in a.entries ensures k in c.entries && Absorbs(c.entries[k], a.entries[k]) {
          assert k in merged;
          assert merged[k] == c.entries[k];
        }
      }
    }
  }

  /** The grouping of three merged values does not matter: see OverlayAssociates. */
  predicate Associates(a: Value, b: Value, c: Value)
    decreases c
  {
    if a.Mapping? && b.Mapping? && c.Mapping? then
      forall k | k in c.entries && k in a.entries && k in b.entries ::
        Associates(a.entries[k], b.entries[k], c.entries[k])
    else if a.Mapping? && c.Mapping? then Absorbs(c, a)
    else true
  }

  lemma {:induction false} OverlayAssociates(a: Value, b: Value, c: Value)
    ensures Overlay(Overlay(a, b), c) == Overlay(a, Overlay(b, c)) <==> Associates(a, b, c)
    decreases c
  {
    if a.Mapping? && b.Mapping? && c.Mapping? {
      var left, right := Overlay(Overlay(a, b), c).entries, Overlay(a, Overlay(b, c)).entries;
      forall k | k in left ensures k in right {}
      forall k | k in right
        ensures k in left
        ensures left[k] == right[k]
                <==> (k in c.entries && k in a.entries && k in b.entries ==>
                        Associates(a.entries[k], b.entries[k], c.entries[k]))
      {
        if k in c.entries && k in a.entries && k in b.entries {
          OverlayAssociates(a.entries[k], b.entries[k], c.entries[k]);
        }
      }
      if Associates(a, b, c) {
        assert left == right;
      }
    } else if a.Mapping? && c.Mapping? {
      NothingLeft(a, c);
    }
  }

  /** A path that leads to mappings in the outer two values and to something else in the middle one. */
  ghost predicate Sandwich(a: Value, b: Value, c: Value, path: seq<string>) {
    IsMapping(At(a, path)) && IsLeaf(At(b, path)) && IsMapping(At(c, path))
  }

  /** Merging three values is associative exactly if, wherever something else stands between two
      mappings, the last mapping overrides all of the first. */
  lemma {:induction false} AssociativeExactlyIf(a: Value, b: Value, c: Value)
    ensures Overlay(Overlay(a, b), c) == Overlay(a, Overlay(b, c))
            <==> forall path | Sandwich(a, b, c, path) :: Absorbs(At(c, path).value, At(a, path).value)
  {
    OverlayAssociates(a, b, c);
    if Associates(a, b, c) {
      forall path | Sandwich(a, b, c, path) ensures Absorbs(At(c, path).value, At(a, path).value) {
        AssociatesAlong(a, b, c, path);
      }
    }
    if forall path | Sandwich(a, b, c, path) :: Absorbs(At(c, path).value, At(a, path).value) {
      SandwichesSuffice(a, b, c);
    }
  }

  lemma {:induction false} AssociatesAlong(a: Value, b: Value, c: Value, path: seq<string>)
    requires Associates(a, b, c) && Sandwich(a, b, c, path)
    ensures Absorbs(At(c, path).value, At(a, path).value)
    decreases path
  {
    if path != [] {
      AssociatesAlong(a.entries[path[0]], b.entries[path[0]], c.entries[path[0]], path[1..]);
    }
  }

  lemma {:induction false} SandwichesSuffice(a: Value, b: Value, c: Value)
    requires forall path | Sandwich(a, b, c, path) :: Absorbs(At(c, path).value, At(a, path).value)
    ensures Associates(a, b, c)
    decreases c
  {
    if a.Mapping? && b.Mapping? && c.Mapping? {
      forall k | k in c.entries && k in a.entries && k in b.entries
        ensures Associates(a.entries[k], b.entries[k], c.entries[k])
      {
        var x, y, z := a.entries[k], b.entries[k], c.entries[k];
        forall path | Sandwich(x, y, z, path) ensures Absorbs(At(z, path).value, At(x, path).value) {
          var longer := [k] + path;
          assert longer[1..] == path;
          assert Sandwich(a, b, c, longer);
        }
        SandwichesSuffice(x, y, z);
      }
    } else if a.Mapping? && c.Mapping? {
      assert Sandwich(a, b, c, []);
    }
  }

  function Keyed(k: string, v: Value): Value {
    Mapping(map[k := v])
  }

  lemma OverlayUnderKey(k: string, x: Value, y: Value)
    ensures Overlay(Keyed(k, x), Keyed(k, y)) == Keyed(k, Overlay(x, y))
  {
    assert Overlay(Keyed(k, x), Keyed(k, y)).entries == map[k := Overlay(x, y)];
  }

  /** In general it is not: a scalar between two mappings under one key drops what came before it,
      once. */
  lemma NotAssociative()
    ensures exists a: Value, b: Value, c: Value ::
              a.Mapping? && b.Mapping? && c.Mapping? && Overlay(Overlay(a, b), c) != Overlay(a, Overlay(b, c))
  {
    var k, x, off, y := "http", Keyed("x", Scalar("1")), Scalar("off"), Keyed("y", Scalar("2"));
    OverlayUnderKey(k, x, off);
    OverlayUnderKey(k, off, y);
    OverlayUnderKey(k, x, y);
    assert "x" in Overlay(x, y).entries && "x" !in y.entries;
    var a, b, c := Keyed(k, x), Keyed(k, off), Keyed(k, y);
    assert Overlay(Overlay(a, b), c).entries[k] == y && Overlay(a, Overlay(b, c)).entries[k] == Overlay(x, y);
  }

  // ---- layers ----------------------------------------------------------------------------------

  /** Layers of options, the outermost first. */
  function Layered(base: Value, layers: seq<Value>): Value {
    if layers == [] then base else Overlay(Layered(base, layers[..|layers| - 1]), layers[|layers| - 1])
  }

  /** Adding the defaults after the layers were merged. */
  function DefaultsLast(defaults: Value, layers: seq<Value>): Value {
    Overlay(defaults, Layered(EMPTY, layers))
  }

  ghost predicate DefaultsCommute(defaults: Value, layers: seq<Value>, n: nat)
    requires n <= |layers|
  {
    DefaultsLast(defaults, layers[..n]) == Layered(defaults, layers[..n])
  }

  ghost predicate LayerAssociates(defaults: Value, layers: seq<Value>, i: nat)
    requires i < |layers|
  {
    Associates(defaults, Layered(EMPTY, layers[..i]), layers[i])
  }

  lemma NextLayer(base: Value, layers: seq<Value>, i: nat)
    requires i < |layers|
    ensures Layered(base, layers[..i + 1]) == Overlay(Layered(base, layers[..i]), layers[i])
  {
    assert layers[..i + 1][..i] == layers[..i];
  }

  lemma OneMoreLayer(defaults: Value, layers: seq<Value>, i: nat)
    requires i < |layers| && DefaultsCommute(defaults, layers, i)
    ensures DefaultsCommute(defaults, layers, i + 1) <==> LayerAssociates(defaults, layers, i)
  {
    NextLayer(EMPTY, layers, i);
    NextLayer(defaults, layers, i);
    OverlayAssociates(defaults, Layered(EMPTY, layers[..i]), layers[i]);
  }

  /** Defaults may be folded in last, layer for layer, exactly if each layer associates with them. */
  lemma {:induction false} DefaultsMayComeLast(defaults: Value, layers: seq<Value>)
    requires defaults.Mapping?
    ensures (forall n: nat | n <= |layers| :: DefaultsCommute(defaults, layers, n))
            <==> (forall i: nat | i < |layers| :: LayerAssociates(defaults, layers, i))
  {
    EmptyIsNeutral(defaults);
    assert layers[..0] == [];
    assert DefaultsCommute(defaults, layers, 0);
    if forall n: nat | n <= |layers| :: DefaultsCommute(defaults, layers, n) {
      forall i: nat | i < |layers| ensures LayerAssociates(defaults, layers, i) {
        assert DefaultsCommute(defaults, layers, i) && DefaultsCommute(defaults, layers, i + 1);
        OneMoreLayer(defaults, layers, i);
      }
    }
    if forall i: nat | i < |layers| :: LayerAssociates(defaults, layers, i) {
      forall n: nat | n <= |layers| ensures DefaultsCommute(defaults, layers, n) {
        CommuteUpTo(defaults, layers, n);
      }
    }
  }

  lemma {:induction false} CommuteUpTo(defaults: Value, layers: seq<Value>, n: nat)
    requires n <= |layers| && defaults.Mapping?
    requires forall i: nat | i < |layers| :: LayerAssociates(defaults, layers, i)
    ensures DefaultsCommute(defaults, layers, n)
  {
    if n == 0 {
      EmptyIsNeutral(defaults);
      assert layers[..0] == [];
    } else {
      CommuteUpTo(defaults, layers, n - 1);
      assert LayerAssociates(defaults, layers, n - 1);
      OneMoreLayer(defaults, layers, n - 1);
    }
  }

  /** The nearest layer wins: a leaf of one layer is in the result if no later layer touches its path. */
  lemma {:induction false} NearestLeafWins(base: Value, layers: seq<Value>, k: nat, path: seq<string>)
    requires k < |layers| && IsLeaf(At(layers[k], path))
    requires forall j | k < j < |layers| :: At(layers[j], path) == None && !Blocks(layers[j], path)
    ensures At(Layered(base, layers), path) == At(layers[k], path)
  {
    var init, last := layers[..|layers| - 1], layers[|layers| - 1];
    LookupInOverlay(Layered(base, init), last, path);
    if k < |layers| - 1 {
      NearestLeafWins(base, init, k, path);
    }
  }

  /** The layers over a merged pair are the layers over the lower of the two, with the other first. */
  lemma LayersOver(base: Value, layers: seq<Value>, top: Value)
    ensures Layered(base, layers + [top]) == Overlay(Layered(base, layers), top)
  {
    assert (layers + [top])[..|layers|] == layers;
  }

  // ---- when the defaults may come last ------------------------------------------------------------

  /** Layers merged on their own. */
  function Combined(vs: seq<Value>): Value
    requires vs != []
  {
    if |vs| == 1 then vs[0] else Overlay(Combined(vs[..|vs| - 1]), vs[|vs| - 1])
  }

  /** What the layers have under a key, those that have something. */
  function Under(vs: seq<Value>, k: string): seq<Value> {
    if vs == [] then []
    else
      var last := vs[|vs| - 1];
      Under(vs[..|vs| - 1], k) + if last.Mapping? && k in last.entries then [last.entries[k]] else []
  }

  ghost predicate AllMappings(vs: seq<Value>) {
    forall v | v in vs :: v.Mapping?
  }

  lemma {:induction false} UnderHolds(vs: seq<Value>, k: string, x: Value)
    ensures x in Under(vs, k) <==> exists v :: v in vs && v.Mapping? && k in v.entries && v.entries[k] == x
  {
    if vs != [] {
      var init, last := vs[..|vs| - 1], vs[|vs| - 1];
      UnderHolds(init, k, x);
      assert vs == init + [last];
    }
  }

  lemma {:induction false} EmptyIsTheStart(vs: seq<Value>)
    requires vs != []
    ensures Layered(EMPTY, vs) == Combined(vs)
  {
    if |vs| == 1 {
      assert vs[..0] == [];
      assert Layered(EMPTY, vs) == Overlay(EMPTY, vs[0]);
      if vs[0].Mapping? {
        EmptyIsNeutral(vs[0]);
      }
    } else {
      EmptyIsTheStart(vs[..|vs| - 1]);
    }
  }

  /** Something else than a mapping on the way: what was below it does not matter. */
  lemma {:induction false} BaseIsDropped(d: Value, vs: seq<Value>)
    requires vs != [] && !(d.Mapping? && AllMappings(vs))
    ensures Layered(d, vs) == Combined(vs)
  {
    var n := |vs| - 1;
    if n == 0 {
      assert vs[..0] == [];
      assert Layered(d, vs) == Overlay(d, vs[0]);
    } else if vs[n].Mapping? {
      assert vs == vs[..n] + [vs[n]];
      BaseIsDropped(d, vs[..n]);
    }
  }

  /** Mappings in layers, key by key. */
  lemma {:induction false} LayeredUnder(d: Value, vs: seq<Value>)
    requires d.Mapping? && AllMappings(vs)
    ensures Layered(d, vs).Mapping?
    ensures forall k :: k in Layered(d, vs).entries <==> k in d.entries || Under(vs, k) != []
    ensures forall k | k in Layered(d, vs).entries ::
              Layered(d, vs).entries[k]
              == if k in d.entries then Layered(d.entries[k], Under(vs, k)) else Combined(Under(vs, k))
  {
    if vs != [] {
      var init, last := vs[..|vs| - 1], vs[|vs| - 1];
      assert last in vs && forall v | v in init :: v in vs;
      LayeredUnder(d, init);
      var before, after := Layered(d, init).entries, Layered(d, vs).entries;
      forall k | k in after
        ensures after[k] == if k in d.entries then Layered(d.entries[k], Under(vs, k)) else Combined(Under(vs, k))
      {
        if k in last.entries {
          assert Under(vs, k)[..|Under(vs, k)| - 1] == Under(init, k);
        } else {
          assert Under(vs, k) == Under(init, k);
        }
      }
    }
  }

  lemma MergedUnder(vs: seq<Value>)
    requires vs != [] && AllMappings(vs)
    ensures Combined(vs).Mapping?
    ensures forall k :: k in Combined(vs).entries <==> Under(vs, k) != []
    ensures forall k | k in Combined(vs).entries :: Combined(vs).entries[k] == Combined(Under(vs, k))
  {
    EmptyIsTheStart(vs);
    LayeredUnder(EMPTY, vs);
  }

  /** Defaults folded in last come out as if they had been first: see DefaultsLastExactlyIf. */
  ghost predicate Folds(d: Value, vs: seq<Value>)
    requires vs != []
    decreases d
  {
    d.Mapping? && Combined(vs).Mapping? ==>
      if AllMappings(vs) then forall k | k in d.entries && Under(vs, k) != [] :: Folds(d.entries[k], Under(vs, k))
      else Absorbs(Combined(vs), d)
  }

  /** For mappings the question is one for each key of both. */
  lemma FoldsByKey(d: Value, vs: seq<Value>)
    requires vs != [] && d.Mapping? && AllMappings(vs)
    ensures Overlay(d, Combined(vs)) == Layered(d, vs)
            <==> forall k | k in d.entries && Under(vs, k) != [] ::
                   Overlay(d.entries[k], Combined(Under(vs, k))) == Layered(d.entries[k], Under(vs, k))
  {
    hide Layered, Combined, Under, Overlay;
    LayeredUnder(d, vs);
    MergedUnder(vs);
    OverlayEntries(d, Combined(vs));
    NoLayers();
    var left, right := Overlay(d, Combined(vs)), Layered(d, vs);
    assert left == right <==> left.entries == right.entries;
    assert left.entries.Keys == right.entries.Keys;
    assert forall k | k in left.entries && k !in d.entries :: left.entries[k] == right.entries[k];
    assert forall k | k in d.entries && Under(vs, k) == [] :: left.entries[k] == right.entries[k];
  }

  lemma NoLayers()
    ensures forall v :: Layered(v, []) == v
  {
  }

  lemma OverlayEntries(a: Value, b: Value)
    requires a.Mapping? && b.Mapping?
    ensures Overlay(a, b).Mapping? && Overlay(a, b).entries.Keys == a.entries.Keys + b.entries.Keys
    ensures forall k | k in Overlay(a, b).entries ::
              Overlay(a, b).entries[k]
              == if k !in b.entries then a.entries[k]
                 else if k !in a.entries then b.entries[k]
                 else Overlay(a.entries[k], b.entries[k])
  {
  }

  lemma {:induction false} FoldsExactly(d: Value, vs: seq<Value>)
    requires vs != []
    ensures Overlay(d, Combined(vs)) == Layered(d, vs) <==> Folds(d, vs)
    decreases d
  {
    hide Layered, Combined, Under, Overlay;
    if d.Mapping? && AllMappings(vs) {
      MergedUnder(vs);
      FoldsByKey(d, vs);
      forall k | k in d.entries && Under(vs, k) != []
        ensures Overlay(d.entries[k], Combined(Under(vs, k))) == Layered(d.entries[k], Under(vs, k))
                <==> Folds(d.entries[k], Under(vs, k))
      {
        FoldsExactly(d.entries[k], Under(vs, k));
      }
    } else {
      BaseIsDropped(d, vs);
      NothingLeft(d, Combined(vs));
    }
  }

  /** Some layer has something else than a mapping at a path. */
  ghost predicate Drops(vs: seq<Value>, path: seq<string>) {
    exists v :: v in vs && IsLeaf(At(v, path))
  }

  /** The defaults and the merged layers both have a mapping where a layer dropped one: what it dropped
      must be overridden again. */
  ghost predicate Restored(d: Value, vs: seq<Value>, path: seq<string>)
    requires vs != []
  {
    IsMapping(At(d, path)) && IsMapping(At(Combined(vs), path)) && Drops(vs, path) ==>
      Absorbs(At(Combined(vs), path).value, At(d, path).value)
  }

  lemma {:induction false} AbsorbsBelow(c: Value, a: Value, path: seq<string>)
    requires Absorbs(c, a) && IsMapping(At(c, path)) && IsMapping(At(a, path))
    ensures Absorbs(At(c, path).value, At(a, path).value)
    decreases path
  {
    if path != [] {
      AbsorbsBelow(c.entries[path[0]], a.entries[path[0]], path[1..]);
    }
  }

  lemma DropsBelow(vs: seq<Value>, k: string, path: seq<string>)
    requires AllMappings(vs)
    ensures Drops(vs, [k] + path) <==> Drops(Under(vs, k), path)
  {
    assert ([k] + path)[1..] == path;
    if Drops(vs, [k] + path) {
      var v :| v in vs && IsLeaf(At(v, [k] + path));
      UnderHolds(vs, k, v.entries[k]);
      assert IsLeaf(At(v.entries[k], path));
    }
    if Drops(Under(vs, k), path) {
      var x :| x in Under(vs, k) && IsLeaf(At(x, path));
      UnderHolds(vs, k, x);
      var v :| v in vs && v.Mapping? && k in v.entries && v.entries[k] == x;
      assert IsLeaf(At(v, [k] + path));
    }
  }

  lemma {:induction false} FoldsAlong(d: Value, vs: seq<Value>, path: seq<string>)
    requires vs != [] && Folds(d, vs)
    ensures Restored(d, vs, path)
    decreases path
  {
    if IsMapping(At(d, path)) && IsMapping(At(Combined(vs), path)) && Drops(vs, path) {
      if !AllMappings(vs) {
        AbsorbsBelow(Combined(vs), d, path);
      } else if path != [] {
        var k, rest := path[0], path[1..];
        MergedUnder(vs);
        assert path == [k] + rest;
        DropsBelow(vs, k, rest);
        FoldsAlong(d.entries[k], Under(vs, k), rest);
      }
    }
  }

  lemma {:induction false} PathsSuffice(d: Value, vs: seq<Value>)
    requires vs != [] && forall path :: Restored(d, vs, path)
    ensures Folds(d, vs)
    decreases d
  {
    if d.Mapping? && Combined(vs).Mapping? {
      assert Restored(d, vs, []);
      if AllMappings(vs) {
        MergedUnder(vs);
        forall k | k in d.entries && Under(vs, k) != [] ensures Folds(d.entries[k], Under(vs, k)) {
          forall path ensures Restored(d.entries[k], Under(vs, k), path) {
            assert ([k] + path)[1..] == path;
            assert Restored(d, vs, [k] + path);
            DropsBelow(vs, k, path);
          }
          PathsSuffice(d.entries[k], Under(vs, k));
        }
      } else {
        var v :| v in vs && !v.Mapping?;
        assert IsLeaf(At(v, []));
      }
    }
  }

  /** Folding the defaults in last gives what folding them in first gives if and only if, wherever a
      layer put something else in the place of a mapping of the defaults and a later one a mapping
      again, the layers override all that the defaults have there. */
  lemma DefaultsLastExactlyIf(defaults: Value, layers: seq<Value>)
    requires layers != []
    ensures DefaultsLast(defaults, layers) == Layered(defaults, layers)
            <==> forall path :: Restored(defaults, layers, path)
  {
    EmptyIsTheStart(layers);
    FoldsExactly(defaults, layers);
    if Folds(defaults, layers) {
      forall path ensures Restored(defaults, layers, path) {
        FoldsAlong(defaults, layers, path);
      }
    }
    if forall path :: Restored(defaults, layers, path) {
      PathsSuffice(defaults, layers);
    }
  }
}
