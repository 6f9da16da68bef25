/** The library object (`Teflon`): the registry of named data maps, the
    dispatcher that fills a template from a data map spec by spec, and
    `load`, which installs the template aliases, the data maps and the
    states of a definition. */
module Teflon {
  import opened Base
  import opened Dom
  import opened Events
  import opened StateModel
  import opened Registry
  import opened Repeat

  /** What a composite `{path, items}` spec says about its items: a string
      (write the whole array), an object of key → data path (repeat one row
      per element), or a value of some other type (`typeof` is `kind`). */
  datatype Items = ItemsString(s: string) | ItemsObject(def: seq<(Ref, string)>) | ItemsOther(kind: string)

  /** One entry of a data map, by the shape of its value: a dotted data
      path; a plain object of sub-key → data path without `path`; a plain
      object with `path` and possibly `items`; or anything else (`kind`). */
  datatype Spec =
    | DataPath(dpath: string)
    | Keys(keys: seq<(Ref, string)>)
    | Picked(path: string, items: Option<Items>)
    | Unsupported(kind: string)

  /** A data map: template path or alias → spec, in key order. */
  type DataMap = seq<(Ref, Spec)>

  /** The pointer state `_fill` has reached and how it ended. */
  datatype Filled = Filled(tree: Tree, outcome: Outcome)

  /** Whether a spec hands its target to `repeat`. */
  predicate Repeats(spec: Spec)
  {
    spec.Picked? && spec.items.Some? && spec.items.value.ItemsObject?
  }

  /** One key of `_fill`: the state after handling `tpath → spec`, or the
      error it throws. Only a spec that repeats touches the rows; every other
      spec only adds writes. */
  function SpecStep(t: Tree, tpath: Ref, spec: Spec, data: Value, append: bool, ptpath: Ref, pick: (string, Value) -> Value): (r: Result<Tree>)
    requires Attached(t.refs, t.children)
    ensures spec.Unsupported? ==> r == Err(UnsupportedSpec(spec.kind))
    ensures spec.Picked? && spec.items.Some? && !pick(spec.path, data).Arr? ==> r == Err(PickedNotArray(tpath, spec.path))
    ensures spec.Picked? && spec.items.None? ==> r == Ok(t)
    ensures spec.Keys? ==> r == Ok(t.(writes := t.writes + KeyWrites(spec.keys, data, tpath, false, pick)))
    ensures spec.Picked? && spec.items.Some? && spec.items.value.ItemsString? && pick(spec.path, data).Arr? ==>
      r == Ok(t.(writes := t.writes + [Write(tpath, pick(spec.path, data), Unset, false)]))
    ensures spec.Picked? && spec.items.Some? && spec.items.value.ItemsOther? && pick(spec.path, data).Arr? ==>
      r == Err(UnknownItemsType(spec.items.value.kind))
    ensures Repeats(spec) && pick(spec.path, data).Arr? ==>
      r == AfterRepeat(t, spec.items.value.def, pick(spec.path, data), tpath, append, pick)
    ensures spec.DataPath? ==> r.Ok? && r.value.writes == t.writes + [Write(tpath, pick(spec.dpath, data), ptpath, false)]
    ensures r.Ok? ==> Attached(r.value.refs, r.value.children) && r.value.aliases == t.aliases && t.writes <= r.value.writes
    ensures r.Ok? && !Repeats(spec) ==>
      r.value.children == t.children && r.value.refs == t.refs && r.value.nextId == t.nextId && r.value.changed == t.changed
  {
    match spec
    case DataPath(d) => Ok(t.(writes := t.writes + [Write(tpath, pick(d, data), ptpath, false)]))
    case Keys(ks) => Ok(t.(writes := t.writes + KeyWrites(ks, data, tpath, false, pick)))
    case Picked(p, None) => Ok(t)
    case Picked(p, Some(items)) =>
      var val := pick(p, data);
      if !val.Arr? then Err(PickedNotArray(tpath, p))
      else
        (match items
         case ItemsString(_) => Ok(t.(writes := t.writes + [Write(tpath, val, Unset, false)]))
         case ItemsObject(def) =>
           RepeatEffect(t, def, val, tpath, append, pick);
           AfterRepeat(t, def, val, tpath, append, pick)
         case ItemsOther(k) => Err(UnknownItemsType(k)))
    case Unsupported(k) => Err(UnsupportedSpec(k))
  }

  /** `_fill(map, data, append, ptpath)`: the keys in order, stopping at the
      first that throws; whatever the earlier keys did stays done. */
  function FillRun(t: Tree, m: DataMap, data: Value, append: bool, ptpath: Ref, pick: (string, Value) -> Value): (f: Filled)
    requires Attached(t.refs, t.children)
    ensures Attached(f.tree.refs, f.tree.children)
    ensures f.tree.aliases == t.aliases && t.writes <= f.tree.writes
    decreases |m|
  {
    if m == [] then Filled(t, Pass)
    else
      var n := |m| - 1;
      var prev := FillRun(t, m[..n], data, append, ptpath, pick);
      if prev.outcome.Fail? then prev
      else
        match SpecStep(prev.tree, m[n].0, m[n].1, data, append, ptpath, pick)
        case Err(e) => Filled(prev.tree, Fail(e))
        case Ok(u) => Filled(u, Pass)
  }

  /** Once a key has thrown, the later keys are never looked at. */
  lemma {:induction false} FillStops(t: Tree, m: DataMap, i: nat, data: Value, append: bool, ptpath: Ref, pick: (string, Value) -> Value)
    requires Attached(t.refs, t.children)
    requires i <= |m| && FillRun(t, m[..i], data, append, ptpath, pick).outcome.Fail?
    ensures FillRun(t, m, data, append, ptpath, pick) == FillRun(t, m[..i], data, append, ptpath, pick)
    decreases |m|
  {
    if i < |m| {
      var n := |m| - 1;
      assert m[..n][..i] == m[..i];
      FillStops(t, m[..n], i, data, append, ptpath, pick);
    } else {
      assert m[..i] == m;
    }
  }

  /** Keys already processed keep their writes: the writes after the first
      `i` keys are a prefix of the writes after all of them, whether or not
      a later key throws. */
  lemma {:induction false} FillKeepsEarlierWrites(t: Tree, m: DataMap, i: nat, data: Value, append: bool, ptpath: Ref, pick: (string, Value) -> Value)
    requires Attached(t.refs, t.children) && i <= |m|
    ensures FillRun(t, m[..i], data, append, ptpath, pick).tree.writes <= FillRun(t, m, data, append, ptpath, pick).tree.writes
    decreases |m|
  {
    if i < |m| {
      var n := |m| - 1;
      assert m[..n][..i] == m[..i];
      FillKeepsEarlierWrites(t, m[..n], i, data, append, ptpath, pick);
      var w0 := FillRun(t, m[..i], data, append, ptpath, pick).tree.writes;
      var w1 := FillRun(t, m[..n], data, append, ptpath, pick).tree.writes;
      var w2 := FillRun(t, m, data, append, ptpath, pick).tree.writes;
      FillStepWrites(t, m, data, append, ptpath, pick);
      PrefixTrans(w0, w1, w2);
    } else {
      assert m[..i] == m;
    }
  }

  /** One more key only adds writes. */
  lemma FillStepWrites(t: Tree, m: DataMap, data: Value, append: bool, ptpath: Ref, pick: (string, Value) -> Value)
    requires Attached(t.refs, t.children) && m != []
    ensures FillRun(t, m[..|m| - 1], data, append, ptpath, pick).tree.writes <= FillRun(t, m, data, append, ptpath, pick).tree.writes
  {
    var n := |m| - 1;
    var prev := FillRun(t, m[..n], data, append, ptpath, pick);
    if prev.outcome.Pass? {
      var s := SpecStep(prev.tree, m[n].0, m[n].1, data, append, ptpath, pick);
      if s.Ok? {
        assert FillRun(t, m, data, append, ptpath, pick).tree == s.value;
      }
    }
  }

  lemma PrefixTrans<T>(a: seq<T>, b: seq<T>, c: seq<T>)
    requires a <= b && b <= c
    ensures a <= c
  {
    assert b[..|a|] == a;
    assert c[..|b|][..|a|] == c[..|a|];
  }

  /** The writes a map of data paths only issues: one per key, in key
      order, at the key with the picked value relative to `ptpath`. */
  function FlatWrites(m: DataMap, data: Value, ptpath: Ref, pick: (string, Value) -> Value): (ws: seq<Write>)
    requires forall i :: 0 <= i < |m| ==> m[i].1.DataPath?
  {
    seq(|m|, i requires 0 <= i < |m| => Write(m[i].0, pick(m[i].1.dpath, data), ptpath, false))
  }

  lemma FlatWritesSnoc(m: DataMap, data: Value, ptpath: Ref, pick: (string, Value) -> Value)
    requires m != [] && forall i :: 0 <= i < |m| ==> m[i].1.DataPath?
    ensures var n := |m| - 1;
      FlatWrites(m, data, ptpath, pick) ==
      FlatWrites(m[..n], data, ptpath, pick) + [Write(m[n].0, pick(m[n].1.dpath, data), ptpath, false)]
  {
  }

  /** A map of data paths only never throws, and issues exactly its flat
      writes; nothing else changes. */
  lemma {:induction false} FlatFill(t: Tree, m: DataMap, data: Value, append: bool, ptpath: Ref, pick: (string, Value) -> Value)
    requires Attached(t.refs, t.children)
    requires forall i :: 0 <= i < |m| ==> m[i].1.DataPath?
    ensures FillRun(t, m, data, append, ptpath, pick) == Filled(t.(writes := t.writes + FlatWrites(m, data, ptpath, pick)), Pass)
    decreases |m|
  {
    if m == [] {
      assert t.writes + [] == t.writes;
    } else {
      var n := |m| - 1;
      assert forall i :: 0 <= i < n ==> m[..n][i] == m[i];
      FlatFill(t, m[..n], data, append, ptpath, pick);
      FlatWritesSnoc(m, data, ptpath, pick);
      var w := Write(m[n].0, pick(m[n].1.dpath, data), ptpath, false);
      var before := t.writes + FlatWrites(m[..n], data, ptpath, pick);
      assert SpecStep(t.(writes := before), m[n].0, m[n].1, data, append, ptpath, pick) == Ok(t.(writes := before + [w]));
      AppendAssoc(t.writes, FlatWrites(m[..n], data, ptpath, pick), [w]);
    }
  }

  /** The outcome and the pointer state one key of `_fill` leaves. */
  ghost predicate Stepped(t: Tree, u: Tree, tpath: Ref, spec: Spec, data: Value, append: bool, ptpath: Ref, pick: (string, Value) -> Value, r: Outcome)
    requires Attached(t.refs, t.children)
  {
    var s := SpecStep(t, tpath, spec, data, append, ptpath, pick);
    u == StateAfter(t, s) && r == OutcomeOf(s)
  }

  /** One key handled after the first `i` succeeded. */
  lemma FillAdvance(t: Tree, m: DataMap, i: nat, v: Tree, u: Tree, data: Value, append: bool, ptpath: Ref, pick: (string, Value) -> Value, r: Outcome)
    requires Attached(t.refs, t.children) && i < |m|
    requires Filled(v, Pass) == FillRun(t, m[..i], data, append, ptpath, pick)
    requires Stepped(v, u, m[i].0, m[i].1, data, append, ptpath, pick, r)
    ensures Filled(u, r) == FillRun(t, m[..i + 1], data, append, ptpath, pick)
  {
    assert m[..i + 1][..i] == m[..i];
  }

  /** A data path or a composite spec only appends its writes. */
  lemma StepWrites(t: Tree, u: Tree, tpath: Ref, spec: Spec, data: Value, append: bool, ptpath: Ref, pick: (string, Value) -> Value)
    requires Attached(t.refs, t.children) && (spec.DataPath? || spec.Keys?)
    requires spec.DataPath? ==> u == t.(writes := t.writes + [Write(tpath, pick(spec.dpath, data), ptpath, false)])
    requires spec.Keys? ==> u == t.(writes := t.writes + KeyWrites(spec.keys, data, tpath, false, pick))
    ensures Stepped(t, u, tpath, spec, data, append, ptpath, pick, Pass)
  {
  }

  /** A spec with object items does what `repeat` does with the picked array. */
  lemma StepRepeats(t: Tree, tpath: Ref, p: string, def: seq<(Ref, string)>, data: Value, append: bool, ptpath: Ref, pick: (string, Value) -> Value)
    requires Attached(t.refs, t.children) && pick(p, data).Arr?
    ensures SpecStep(t, tpath, Picked(p, Some(ItemsObject(def))), data, append, ptpath, pick) ==
      AfterRepeat(t, def, pick(p, data), tpath, append, pick)
  {
  }

  /** The library object: the pointer, the event/state registry driving it,
      and the data maps registered with `link`. */
  class Teflon {
    const dp: Pointer
    const registry: States
    /** `maps.data`: map name → data map. */
    var dataMaps: map<string, DataMap>

    ghost predicate Valid()
      reads this, dp, registry, registry.teflon, registry.teflon.dp
    {
      registry.teflon.dp == dp && registry.Valid() && dp.Valid()
    }

    /** `new Teflon(dp)`: no handlers, no states, no data maps. */
    constructor (dp: Pointer)
      requires dp.Valid() && dp.listening == multiset{}
      ensures Valid() && this.dp == dp && dataMaps == map[]
      ensures registry.state == map[] && registry.teflon.handlers == map[]
    {
      this.dp := dp;
      var events := new Delegator(dp);
      registry := new States(events);
      dataMaps := map[];
    }

    /** `link(name, type, map)`: only the 'data' map type exists; a second
        link under a name replaces the first. */
    method Link(name: string, mapType: string, m: DataMap) returns (r: Outcome)
      modifies this`dataMaps
      ensures mapType != "data" ==> r == Fail(UnknownMappingType(mapType)) && dataMaps == old(dataMaps)
      ensures mapType == "data" ==> r == Pass && dataMaps == old(dataMaps)[name := m]
    {
      if mapType != "data" {
        return Fail(UnknownMappingType(mapType));
      }
      dataMaps := dataMaps[name := m];
      r := Pass;
    }

    /** `fill(name, data, append)`: the named data map applied to `data`. */
    method Fill(name: string, data: Value, append: bool, pick: (string, Value) -> Value) returns (r: Outcome)
      requires Valid()
      modifies dp`children, dp`refs, dp`nextId, dp`changed, dp`writes
      ensures Valid()
      ensures name !in dataMaps ==> r == Fail(NoSuchDataMap(name)) && dp.View() == old(dp.View())
      ensures name in dataMaps ==> Filled(dp.View(), r) == FillRun(old(dp.View()), dataMaps[name], data, append, Unset, pick)
    {
      if name !in dataMaps {
        return Fail(NoSuchDataMap(name));
      }
      r := FillMap(dataMaps[name], data, append, Unset, pick);
    }

    /** `_fill(map, data, append, ptpath)`: each key in turn, stopping at the
        first one that throws. */
    method FillMap(m: DataMap, data: Value, append: bool, ptpath: Ref, pick: (string, Value) -> Value) returns (r: Outcome)
      requires dp.Valid()
      modifies dp`children, dp`refs, dp`nextId, dp`changed, dp`writes
      ensures dp.Valid()
      ensures Filled(dp.View(), r) == FillRun(old(dp.View()), m, data, append, ptpath, pick)
    {
      ghost var t0 := dp.View();
      r := Pass;
      for i := 0 to |m|
        invariant dp.Valid()
        invariant r == Pass && Filled(dp.View(), Pass) == FillRun(t0, m[..i], data, append, ptpath, pick)
      {
        ghost var v := dp.View();
        r := FillKey(m[i].0, m[i].1, data, append, ptpath, pick);
        FillAdvance(t0, m, i, v, dp.View(), data, append, ptpath, pick, r);
        if r.Fail? {
          FillStops(t0, m, i + 1, data, append, ptpath, pick);
          return;
        }
      }
      assert m[..|m|] == m;
    }

    /** The body of the `forEach` in `_fill`: classify the spec, then write,
        repeat or throw. */
    method FillKey(tpath: Ref, spec: Spec, data: Value, append: bool, ptpath: Ref, pick: (string, Value) -> Value) returns (r: Outcome)
      requires dp.Valid()
      modifies dp`children, dp`refs, dp`nextId, dp`changed, dp`writes
      ensures dp.Valid()
      ensures Stepped(old(dp.View()), dp.View(), tpath, spec, data, append, ptpath, pick, r)
    {
      ghost var t := dp.View();
      match spec
      case DataPath(d) =>
        dp.writes := dp.writes + [Write(tpath, pick(d, data), ptpath, false)];
        r := Pass;
        StepWrites(t, dp.View(), tpath, spec, data, append, ptpath, pick);
      case Keys(ks) =>
        WriteKeys(dp, ks, data, tpath, false, pick);
        r := Pass;
        StepWrites(t, dp.View(), tpath, spec, data, append, ptpath, pick);
      case Picked(p, items) =>
        r := FillPicked(tpath, p, items, data, append, ptpath, pick);
      case Unsupported(k) =>
        r := Fail(UnsupportedSpec(k));
    }

    /** A `{path, items}` spec: pick the value; with `items`, it must be an
        array, written whole for string items or repeated for object items. */
    method FillPicked(tpath: Ref, p: string, items: Option<Items>, data: Value, append: bool, ghost ptpath: Ref, pick: (string, Value) -> Value) returns (r: Outcome)
      requires dp.Valid()
      modifies dp`children, dp`refs, dp`nextId, dp`changed, dp`writes
      ensures dp.Valid()
      ensures Stepped(old(dp.View()), dp.View(), tpath, Picked(p, items), data, append, ptpath, pick, r)
    {
      var val := pick(p, data);
      if items.None? {
        return Pass;
      }
      if !val.Arr? {
        return Fail(PickedNotArray(tpath, p));
      }
      ghost var t := dp.View();
      match items.value
      case ItemsString(_) =>
        dp.writes := dp.writes + [Write(tpath, val, Unset, false)];
        r := Pass;
      case ItemsObject(def) =>
        r := Repeat.Repeat(dp, def, val, tpath, append, pick);
        StepRepeats(t, tpath, p, def, data, append, ptpath, pick);
      case ItemsOther(k) =>
        r := Fail(UnknownItemsType(k));
    }

    /** `setTemplateMap(map)`: drop the cached paths if there are any, then
        alias every key to its path, so an alias resolves as its path does. */
    method SetTemplateMap(tmpl: map<string, Path>)
      requires Valid()
      modifies dp`refs, dp`aliases
      ensures Valid()
      ensures dp.refs == map[] && dp.aliases == old(dp.aliases) + tmpl
      ensures forall k :: k in tmpl ==> Dealias(dp.aliases, Alias(k)) == At(tmpl[k])
    {
      if |dp.refs| > 0 {
        dp.refs := map[];
      }
      BindAliases(tmpl);
    }

    /** The `forEach` of `setTemplateMap`: `dp.alias(key, map[key])`. */
    method BindAliases(tmpl: map<string, Path>)
      modifies dp`aliases
      ensures dp.aliases == old(dp.aliases) + tmpl
    {
      var pending := tmpl.Keys;
      while pending != {}
        invariant pending <= tmpl.Keys
        invariant dp.aliases == old(dp.aliases) + (map k | k in tmpl.Keys - pending :: tmpl[k])
        decreases pending
      {
        var k :| k in pending;
        dp.aliases := dp.aliases[k := tmpl[k]];
        pending := pending - {k};
      }
      assert (map k | k in tmpl.Keys - {} :: tmpl[k]) == tmpl;
    }

    /** `setDataMap(map)`: `link(name, 'data', map[name])` for every name. */
    method SetDataMap(maps: map<string, DataMap>)
      modifies this`dataMaps
      ensures dataMaps == old(dataMaps) + maps
    {
      var pending := maps.Keys;
      while pending != {}
        invariant pending <= maps.Keys
        invariant dataMaps == old(dataMaps) + (map k | k in maps.Keys - pending :: maps[k])
        decreases pending
      {
        var k :| k in pending;
        var r := Link(k, "data", maps[k]);
        pending := pending - {k};
      }
      assert (map k | k in maps.Keys - {} :: maps[k]) == maps;
    }

    /** `load({template, data, state})`: the template aliases, then the data
        maps, then the states (activating 'default' when there is one). */
    method Load(tmpl: map<string, Path>, maps: map<string, DataMap>, states: seq<(string, StateSpec)>) returns (r: Outcome)
      requires Valid()
      modifies this`dataMaps, dp`refs, dp`aliases, registry, registry.Repr, registry.teflon, dp`listening, dp`attributeLog
      ensures Valid()
      ensures dp.aliases == old(dp.aliases) + tmpl && dataMaps == old(dataMaps) + maps
      ensures r.Pass? ==> forall i :: 0 <= i < |states| ==> states[i].0 in registry.state
      ensures r.Pass? ==> registry.state.Keys == old(registry.state.Keys) + NamesOf(states, |states|)
      ensures r.Pass? ==>
        forall n :: n in old(registry.state) && n != "default" ==> registry.state[n] == old(registry.state[n])
      ensures r.Pass? ==>
        forall n :: n in registry.state && n !in old(registry.state) && n != "default" ==> registry.state[n].Single?
      ensures r.Pass? && "default" in registry.state ==> registry.InState("default", Unset) == Ok(true)
      ensures forall s :: s in old(registry.Repr) && registry.GetState("default", Unset) != Ok(Single(s)) ==> unchanged(s)
    {
      SetTemplateMap(tmpl);
      SetDataMap(maps);
      r := registry.SetStateMap(states);
    }
  }
}
