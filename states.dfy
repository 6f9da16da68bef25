/** The state registry of src/states.js: a map from state name to either a
    master state or, once the name has been activated with a path, a
    per-path collection of clones of that master. */
module Registry {
  import opened Base
  import opened Dom
  import opened Events
  import opened StateModel

  /** What `this.state.get(name)` holds: a state object, or a Map from
      instance path to clone together with the Map's insertion order. */
  datatype Entry =
    | Single(s: State)
    | PerPath(order: seq<Ref>, byPath: map<Ref, State>)

  /** `Map.delete` on the insertion order. */
  function Drop(order: seq<Ref>, p: Ref): (r: seq<Ref>)
    ensures forall q :: q in r <==> q in order && q != p
  {
    if order == [] then []
    else (if order[0] == p then [] else [order[0]]) + Drop(order[1..], p)
  }

  /** A master: a state with no path that drives the delegator `t`. */
  ghost predicate MasterOk(s: State, repr: set<State>, t: Delegator)
  {
    s in repr && s.teflon == t && s.path == Unset
  }

  /** A clone filed under `p`: its own path is `p`. */
  ghost predicate InstanceOk(s: State, p: Ref, repr: set<State>, t: Delegator)
  {
    s in repr && s.teflon == t && s.path == p && Truthy(p)
  }

  /** A name holds a master until it is promoted, and a per-path Map whose
      insertion order lists exactly its keys afterwards. */
  ghost predicate SlotOk(e: Entry, promoted: bool, repr: set<State>, t: Delegator)
  {
    match e
    case Single(s) => !promoted && MasterOk(s, repr, t)
    case PerPath(order, byPath) =>
      promoted &&
      (forall p :: p in byPath <==> p in order) &&
      forall p :: p in byPath ==> InstanceOk(byPath[p], p, repr, t)
  }

  /** The registry's invariant, on the values of its fields: every entry is
      well formed, and the names in `prototype` are exactly the promoted
      ones. */
  ghost predicate ShapeOf(st: map<string, Entry>, pr: map<string, State>, repr: set<State>, t: Delegator)
  {
    (forall n :: n in st ==> SlotOk(st[n], n in pr, repr, t)) &&
    (forall n :: n in pr ==> n in st && MasterOk(pr[n], repr, t))
  }

  /** `addState` files a new master under an unused name. */
  lemma ShapeAdd(st: map<string, Entry>, pr: map<string, State>, repr: set<State>, t: Delegator, name: string, s: State)
    requires ShapeOf(st, pr, repr, t) && name !in st && s.teflon == t && s.path == Unset
    ensures ShapeOf(st[name := Single(s)], pr, repr + {s}, t)
  {
    forall n | n in st
      ensures SlotOk(st[n], n in pr, repr + {s}, t)
    {
      assert SlotOk(st[n], n in pr, repr, t);
    }
  }

  /** The first `activateState` with a path moves the master to `prototype`
      and leaves an empty Map in its place. */
  lemma ShapePromote(st: map<string, Entry>, pr: map<string, State>, repr: set<State>, t: Delegator, name: string)
    requires ShapeOf(st, pr, repr, t) && name in st && st[name].Single?
    ensures ShapeOf(st[name := PerPath([], map[])], pr[name := st[name].s], repr, t)
  {
    assert SlotOk(st[name], name in pr, repr, t);
  }

  /** Filing a new clone under a path the Map does not have. */
  lemma ShapeClone(st: map<string, Entry>, pr: map<string, State>, repr: set<State>, t: Delegator,
                   name: string, p: Ref, s: State)
    requires ShapeOf(st, pr, repr, t) && name in st && st[name].PerPath? && p !in st[name].byPath
    requires Truthy(p) && s.teflon == t && s.path == p
    ensures ShapeOf(st[name := PerPath(st[name].order + [p], st[name].byPath[p := s])], pr, repr + {s}, t)
  {
    forall n | n in st
      ensures SlotOk(st[n], n in pr, repr + {s}, t)
    {
      assert SlotOk(st[n], n in pr, repr, t);
    }
  }

  /** `removeState(name, path)` deletes one instance. */
  lemma ShapeDropInstance(st: map<string, Entry>, pr: map<string, State>, repr: set<State>, t: Delegator,
                          name: string, p: Ref)
    requires ShapeOf(st, pr, repr, t) && name in st && st[name].PerPath?
    ensures ShapeOf(st[name := PerPath(Drop(st[name].order, p), st[name].byPath - {p})], pr, repr, t)
  {
    assert SlotOk(st[name], name in pr, repr, t);
  }

  /** `removeState(name)` deletes a master that was never promoted. */
  lemma ShapeDropSingle(st: map<string, Entry>, pr: map<string, State>, repr: set<State>, t: Delegator, name: string)
    requires ShapeOf(st, pr, repr, t) && name in st && st[name].Single?
    ensures ShapeOf(st - {name}, pr, repr, t)
  {
    assert SlotOk(st[name], name in pr, repr, t);
  }

  /** The names of the first `n` entries of a state map. */
  ghost function NamesOf(defs: seq<(string, StateSpec)>, n: nat): set<string>
    requires n <= |defs|
  {
    set j | 0 <= j < n :: defs[j].0
  }

  lemma NamesOfNext(defs: seq<(string, StateSpec)>, i: nat)
    requires i < |defs|
    ensures NamesOf(defs, i + 1) == NamesOf(defs, i) + {defs[i].0}
  {
    assert defs[i].0 in NamesOf(defs, i + 1);
  }

  /** `defs[i]` is the first entry of the map whose name is taken, either
      by a state registered before (`names`) or by an earlier entry. */
  ghost predicate FirstClash(defs: seq<(string, StateSpec)>, i: nat, names: set<string>)
    requires i < |defs|
  {
    Unclashed(defs, i, names) && defs[i].0 in names + NamesOf(defs, i)
  }

  /** The first `n` entries of a state map all bring new names: none was
      registered before (`names`) and no two are alike. */
  ghost predicate Unclashed(defs: seq<(string, StateSpec)>, n: nat, names: set<string>)
    requires n <= |defs|
  {
    (forall j :: 0 <= j < n ==> defs[j].0 !in names) &&
    forall j, k :: 0 <= k < j < n ==> defs[k].0 != defs[j].0
  }

  lemma UnclashedNext(defs: seq<(string, StateSpec)>, i: nat, names: set<string>)
    requires i < |defs| && Unclashed(defs, i, names) && defs[i].0 !in names + NamesOf(defs, i)
    ensures Unclashed(defs, i + 1, names)
  {
    forall k | 0 <= k < i
      ensures defs[k].0 != defs[i].0
    {
      assert defs[k].0 in NamesOf(defs, i);
    }
  }

  /** `st` holds the entries registered before (`before`), unchanged, plus
      the first `i` entries of a state map, each under a name that was free
      and each a single master. */
  ghost predicate Registered(st: map<string, Entry>, defs: seq<(string, StateSpec)>, i: nat, before: map<string, Entry>)
    requires i <= |defs|
  {
    st.Keys == before.Keys + NamesOf(defs, i) && Unclashed(defs, i, before.Keys) &&
    (forall n :: n in before ==> n in st && st[n] == before[n]) &&
    forall n :: n in st && n !in before ==> st[n].Single?
  }

  /** One turn of the `forEach`: a single master filed under the next
      entry's free name extends the run by one. */
  lemma RegisteredNext(st: map<string, Entry>, defs: seq<(string, StateSpec)>, i: nat, before: map<string, Entry>, e: Entry)
    requires i < |defs| && Registered(st, defs, i, before) && defs[i].0 !in st && e.Single?
    ensures Registered(st[defs[i].0 := e], defs, i + 1, before)
  {
    NamesOfNext(defs, i);
    UnclashedNext(defs, i, before.Keys);
  }

  /** The turn that finds the next entry's name taken is the first clash. */
  lemma ClashAt(st: map<string, Entry>, defs: seq<(string, StateSpec)>, i: nat, before: map<string, Entry>)
    requires i < |defs| && Registered(st, defs, i, before) && defs[i].0 in st
    ensures FirstClash(defs, i, before.Keys)
  {
  }

  /** What the target's `activate()` (`on`) or `disable()` leaves behind:
      the handler table after its event changes, the outcome of that run,
      the changes it reached with the instance path filled in, and, when
      the run got through, the attributes with the path filled in, one
      attribute call for them and the new flag. */
  twostate predicate Ran(t: Delegator, s: State, on: bool, r: Outcome)
    reads t, t.dp, s
  {
    var p := RunChanges(old(t.handlers), t.dp.aliases, Listed(old(s.events)), s.path, on);
    t.handlers == p.table && r == p.outcome && s.events == FillSome(old(s.events), s.path, p.done) &&
    if r.Pass? then
      s.isActive == on &&
      s.attributes == FillSome(old(s.attributes), s.path, |Listed(old(s.attributes))|) &&
      t.dp.attributeLog == old(t.dp.attributeLog) + AttributeCalls(s.attributes, on)
    else
      s.isActive == old(s.isActive) && s.attributes == old(s.attributes) &&
      t.dp.attributeLog == old(t.dp.attributeLog)
  }

  /** `s` is the master `addState(name, spec)` builds: inactive, without a
      path, with the spec's events and attributes. */
  ghost predicate NewMaster(s: State, name: string, spec: StateSpec)
    reads s
  {
    s.name == name && !s.isActive && s.path == Unset && s.events == spec.events && s.attributes == spec.attributes
  }

  /** Neither the handler table nor the attribute log has changed. */
  twostate predicate Untouched(t: Delegator)
    reads t, t.dp
  {
    t.handlers == old(t.handlers) && t.dp.attributeLog == old(t.dp.attributeLog)
  }

  /** The keys every plain object (`_prototype = {}`) answers through
      Object.prototype: `_prototype[name]` is truthy for them although
      nothing was ever stored there. */
  const Inherited: set<string> := {
    "constructor", "hasOwnProperty", "isPrototypeOf", "propertyIsEnumerable",
    "toLocaleString", "toString", "valueOf", "__proto__",
    "__defineGetter__", "__defineSetter__", "__lookupGetter__", "__lookupSetter__"
  }

  class States {
    const teflon: Delegator
    var state: map<string, Entry>
    /** `_prototype`: the master of every name that has been promoted. */
    var prototype: map<string, State>
    /** Every state object the registry has created. */
    ghost var Repr: set<State>

    ghost predicate Valid()
      reads this, teflon, teflon.dp
    {
      teflon.Valid() && Shape()
    }

    ghost predicate Shape()
      reads this
    {
      ShapeOf(state, prototype, Repr, teflon)
    }

    constructor (teflon: Delegator)
      requires teflon.Valid()
      ensures Valid() && this.teflon == teflon
      ensures state == map[] && prototype == map[] && Repr == {}
    {
      this.teflon := teflon;
      state := map[];
      prototype := map[];
      Repr := {};
    }

    /** `hasState(name, path)` */
    predicate HasState(name: string, path: Ref)
      reads this
      ensures !Truthy(path) ==> (HasState(name, path) <==> name in state)
      ensures Truthy(path) ==>
        (HasState(name, path) <==> name in state && state[name].PerPath? && path in state[name].byPath)
    {
      name in state && (Truthy(path) ==> state[name].PerPath? && path in state[name].byPath)
    }

    /** `getState(name, path)`: the instance under `path`, or without a path
        whatever the name holds (which is a Map once the name is promoted). */
    function GetState(name: string, path: Ref): (r: Result<Entry>)
      reads this
      ensures r.Ok? <==> name in state && (Truthy(path) ==> state[name].PerPath? && path in state[name].byPath)
      ensures r.Err? ==> r.error == StateDoesNotExist(name)
      ensures r.Ok? && Truthy(path) ==> r.value == Single(state[name].byPath[path])
      ensures r.Ok? && !Truthy(path) ==> r.value == state[name]
    {
      if HasState(name, path) then
        if Truthy(path) then Ok(Single(state[name].byPath[path])) else Ok(state[name])
      else Err(StateDoesNotExist(name))
    }

    /** The state object `getState` finds is one of the registry's, driving
        its delegator. */
    lemma TargetOk(name: string, path: Ref)
      requires Shape()
      ensures GetState(name, path).Ok? && GetState(name, path).value.Single? ==>
        GetState(name, path).value.s in Repr && GetState(name, path).value.s.teflon == teflon
    {
      if name in state {
        assert SlotOk(state[name], name in prototype, Repr, teflon);
      }
    }

    /** `inState(name, path)`: the target's `isActive`. A promoted name read
        without a path is a Map, whose `isActive` is undefined; every caller
        treats that as false, and so does the model. */
    function InState(name: string, path: Ref): (r: Result<bool>)
      requires Shape()
      reads this, Repr
      ensures r.Err? <==> !HasState(name, path)
      ensures r.Err? ==> r.error == StateDoesNotExist(name)
      ensures r == Ok(true) <==>
        GetState(name, path).Ok? && GetState(name, path).value.Single? && GetState(name, path).value.s.isActive
    {
      TargetOk(name, path);
      match GetState(name, path)
      case Err(e) => Err(e)
      case Ok(Single(s)) => Ok(s.isActive)
      case Ok(PerPath(_, _)) => Ok(false)
    }

    /** `_prototype[name]` is truthy only through Object.prototype, so the
        name is never promoted and `clone` is looked up on a built-in. */
    predicate Inherits(name: string)
      reads this
    {
      name in Inherited && name !in prototype
    }

    /** The promotion part of `activateState(name, path)`: for a path the
        name does not have yet, the master moves to `prototype` (the first
        time) and a fresh clone of it is filed under the path. */
    method Promote(name: string, path: Ref) returns (r: Outcome)
      requires Valid()
      modifies this
      ensures Valid() && old(Repr) <= Repr && fresh(Repr - old(Repr))
      ensures r.Fail? <==>
        Truthy(path) && !old(HasState(name, path)) && (name !in old(state) || old(Inherits(name)))
      ensures r.Fail? ==>
        r.error == if name in old(state) then NotAFunction("clone") else StateDoesNotExist(name)
      ensures r.Fail? || !Truthy(path) || old(HasState(name, path)) ==>
        state == old(state) && prototype == old(prototype) && Repr == old(Repr)
      ensures state.Keys == old(state.Keys)
      ensures forall n :: n in old(state) && n != name ==> state[n] == old(state[n])
      ensures r.Pass? && Truthy(path) ==>
        HasState(name, path) &&
        prototype == old(if state[name].Single? then prototype[name := state[name].s] else prototype)
      ensures r.Pass? && Truthy(path) && !old(HasState(name, path)) ==>
        fresh(state[name].byPath[path]) && !state[name].byPath[path].isActive
    {
      r := Pass;
      if Truthy(path) && !HasState(name, path) {
        if name !in prototype {
          if name !in state {
            return Fail(StateDoesNotExist(name));
          }
          if name in Inherited {
            return Fail(NotAFunction("clone"));
          }
          MoveToPrototype(name);
        } else {
          assert SlotOk(state[name], name in prototype, Repr, teflon);
        }
        FileClone(name, path);
      }
    }

    /** `this._prototype[name] = this.getState(name)` followed by
        `this.state.set(name, new Map())`. */
    method MoveToPrototype(name: string)
      requires Valid() && name in state && name !in prototype
      modifies this
      ensures Valid() && Repr == old(Repr)
      ensures old(state[name]).Single?
      ensures prototype == old(prototype)[name := old(state[name]).s]
      ensures state == old(state)[name := PerPath([], map[])]
      ensures state.Keys == old(state.Keys) && forall n :: n in old(state) && n != name ==> state[n] == old(state[n])
    {
      assert SlotOk(state[name], name in prototype, Repr, teflon);
      ShapePromote(state, prototype, Repr, teflon, name);
      prototype := prototype[name := state[name].s];
      state := state[name := PerPath([], map[])];
    }

    /** `this.getState(name).set(path, this._prototype[name].clone(path))` */
    method FileClone(name: string, path: Ref)
      requires Valid() && name in state && name in prototype && Truthy(path) && !HasState(name, path)
      modifies this
      ensures Valid() && prototype == old(prototype)
      ensures name in state && state[name].PerPath? && path in state[name].byPath
      ensures state.Keys == old(state.Keys) && forall n :: n in old(state) && n != name ==> state[n] == old(state[n])
      ensures var clone := state[name].byPath[path];
        fresh(clone) && Repr == old(Repr) + {clone} &&
        !clone.isActive && clone.name == prototype[name].name &&
        clone.events == prototype[name].events && clone.attributes == prototype[name].attributes &&
        state == old(state)[name := PerPath(old(state[name]).order + [path], old(state[name]).byPath[path := clone])]
    {
      assert MasterOk(prototype[name], Repr, teflon);
      assert SlotOk(state[name], name in prototype, Repr, teflon);
      var c := prototype[name].Clone(path);
      var instance := c.value;
      ShapeClone(state, prototype, Repr, teflon, name, path, instance);
      Repr := Repr + {instance};
      state := state[name := PerPath(state[name].order + [path], state[name].byPath[path := instance])];
    }

    /** `activateState(name, path)` */
    method ActivateState(name: string, path: Ref) returns (r: Outcome)
      requires Valid()
      modifies this, Repr, teflon, teflon.dp`listening, teflon.dp`attributeLog
      ensures Valid() && old(Repr) <= Repr && fresh(Repr - old(Repr))
      ensures name !in old(state) ==> r == Fail(StateDoesNotExist(name))
      ensures old(InState(name, path)) == Ok(true) ==> r == Fail(AlreadyActivated(name)) && state == old(state)
      ensures name in old(state) && !Truthy(path) && old(state[name]).PerPath? ==> r == Fail(NotAFunction("activate"))
      ensures state.Keys == old(state.Keys)
      ensures forall n :: n in old(state) && n != name ==> state[n] == old(state[n])
      ensures Truthy(path) && name in old(state) && !old(HasState(name, path)) && old(Inherits(name)) ==>
        r == Fail(NotAFunction("clone")) && state == old(state) && prototype == old(prototype)
      ensures Truthy(path) && name in old(state) && (old(HasState(name, path)) || !old(Inherits(name))) ==>
        HasState(name, path) &&
        prototype == old(if state[name].Single? then prototype[name := state[name].s] else prototype)
      ensures Truthy(path) && name in old(state) && !old(HasState(name, path)) && !old(Inherits(name)) ==>
        fresh(state[name].byPath[path])
      ensures r.Pass? ==> InState(name, path) == Ok(true)
      ensures forall s :: s in old(Repr) && GetState(name, path) != Ok(Single(s)) ==> unchanged(s)
    {
      r := Promote(name, path);
      if r.Fail? {
        return;
      }
      r := ActivateTarget(name, path);
    }

    /** The rest of `activateState(name, path)`: the target must exist, be a
        state object and be inactive; then it is activated. */
    method ActivateTarget(name: string, path: Ref) returns (r: Outcome)
      requires Valid()
      modifies Repr, teflon, teflon.dp`listening, teflon.dp`attributeLog
      ensures Valid()
      ensures !HasState(name, path) ==> r == Fail(StateDoesNotExist(name))
      ensures old(InState(name, path)) == Ok(true) ==> r == Fail(AlreadyActivated(name))
      ensures HasState(name, path) && !Truthy(path) && state[name].PerPath? ==> r == Fail(NotAFunction("activate"))
      ensures r.Pass? ==> InState(name, path) == Ok(true)
      ensures forall s :: s in Repr && GetState(name, path) != Ok(Single(s)) ==> unchanged(s)
      ensures old(InState(name, path)) == Ok(false) && GetState(name, path).value.Single? ==>
        Ran(teflon, GetState(name, path).value.s, true, r)
      ensures old(InState(name, path)) != Ok(false) || GetState(name, path).value.PerPath? ==> Untouched(teflon)
    {
      var cur := InState(name, path);
      if cur.Err? {
        return Fail(cur.error);
      }
      if cur.value {
        return Fail(AlreadyActivated(name));
      }
      var e := GetState(name, path).value;
      if e.PerPath? {
        return Fail(NotAFunction("activate"));
      }
      TargetOk(name, path);
      r := e.s.Activate();
    }

    /** `disableState(name, path)` */
    method DisableState(name: string, path: Ref) returns (r: Outcome)
      requires Valid()
      modifies Repr, teflon, teflon.dp`listening, teflon.dp`attributeLog
      ensures Valid()
      ensures !old(HasState(name, path)) ==> r == Fail(StateDoesNotExist(name))
      ensures old(InState(name, path)) == Ok(false) ==> r == Fail(AlreadyDisabled(name))
      ensures r.Pass? ==> old(InState(name, path)) == Ok(true) && InState(name, path) == Ok(false)
      ensures forall s :: s in Repr && GetState(name, path) != Ok(Single(s)) ==> unchanged(s)
      ensures old(InState(name, path)) == Ok(true) ==> Ran(teflon, GetState(name, path).value.s, false, r)
      ensures old(InState(name, path)) != Ok(true) ==> Untouched(teflon)
    {
      var cur := InState(name, path);
      if cur.Err? {
        return Fail(cur.error);
      }
      if !cur.value {
        return Fail(AlreadyDisabled(name));
      }
      TargetOk(name, path);
      r := GetState(name, path).value.s.Disable();
    }

    /** `disableAll(name)`: disables every active instance of a promoted
        name, in the Map's insertion order. */
    method DisableAll(name: string) returns (r: Outcome)
      requires Valid()
      modifies Repr, teflon, teflon.dp`listening, teflon.dp`attributeLog
      ensures Valid()
      ensures name !in state ==> r == Fail(ReadOfUndefined("constructor"))
      ensures name in state && state[name].Single? ==> r == Fail(NotInstances(name))
      ensures !(name in state && state[name].PerPath?) ==> Untouched(teflon)
      ensures r.Pass? ==>
        name in state && state[name].PerPath? &&
        forall p :: p in state[name].byPath ==> !state[name].byPath[p].isActive
      ensures forall s :: s in Repr && !(name in state && state[name].PerPath? && s in state[name].byPath.Values) ==>
        unchanged(s)
    {
      if name !in state {
        return Fail(ReadOfUndefined("constructor"));
      }
      var e := state[name];
      if e.Single? {
        return Fail(NotInstances(name));
      }
      var keys := e.order;
      r := Pass;
      for i := 0 to |keys|
        invariant Valid() && r == Pass
        invariant forall j :: 0 <= j < i ==> !e.byPath[keys[j]].isActive
        invariant forall s :: s in Repr && s !in e.byPath.Values ==> unchanged(s)
      {
        r := DisableIfActive(name, keys, i);
        if r.Fail? {
          return;
        }
      }
    }

    /** One turn of the loop in `disableAll` over the name's keys in
        insertion order: disable the instance under `keys[i]` when it is
        active, keeping the ones before it disabled. */
    method DisableIfActive(name: string, ghost keys: seq<Ref>, i: nat) returns (r: Outcome)
      requires Valid() && name in state && state[name].PerPath? && keys == state[name].order && i < |keys|
      requires forall j :: 0 <= j < i ==> !state[name].byPath[keys[j]].isActive
      modifies Repr, teflon, teflon.dp`listening, teflon.dp`attributeLog
      ensures Valid()
      ensures r.Pass? ==> forall j :: 0 <= j <= i ==> !state[name].byPath[keys[j]].isActive
      ensures keys[i] in state[name].byPath
      ensures forall s :: s in Repr && s != state[name].byPath[keys[i]] ==> unchanged(s)
      ensures var target := state[name].byPath[keys[i]];
        if old(target.isActive) then Ran(teflon, target, false, r) else r == Pass && Untouched(teflon)
    {
      var e := state[name];
      assert SlotOk(e, name in prototype, Repr, teflon);
      var key := e.order[i];
      ghost var target := e.byPath[key];
      assert InstanceOk(target, key, Repr, teflon);
      assert GetState(name, key) == Ok(Single(target));
      var cur := InState(name, key);
      r := Pass;
      if cur.value {
        r := DisableState(name, key);
        forall j | 0 <= j < i
          ensures !e.byPath[keys[j]].isActive
        {
          assert InstanceOk(e.byPath[keys[j]], keys[j], Repr, teflon);
        }
      }
    }

    /** `toggleState(name, path, clear)`: disables an active target and
        activates any other; with `clear` the activation is preceded by an
        activation and a `disableAll` of the name. */
    method ToggleState(name: string, path: Ref, clear: bool) returns (r: Outcome)
      requires Valid()
      modifies this, Repr, teflon, teflon.dp`listening, teflon.dp`attributeLog
      ensures Valid()
      ensures old(InState(name, path)) == Ok(true) ==>
        r.Pass? ==> InState(name, path) == Ok(false)
      ensures old(InState(name, path)) != Ok(true) ==>
        r.Pass? ==> InState(name, path) == Ok(true)
      ensures old(InState(name, path)) != Ok(true) && !clear && name !in old(state) ==>
        r == Fail(StateDoesNotExist(name))
      ensures old(InState(name, path)) == Ok(false) && clear && !Truthy(path) && old(state[name]).Single? ==>
        r.Fail?
    {
      var active := false;
      if HasState(name, path) {
        var cur := InState(name, path);
        active := cur.value;
      }
      if !active {
        if clear {
          r := ActivateState(name, path);
          if r.Fail? {
            return;
          }
          r := DisableAll(name);
          if r.Fail? {
            return;
          }
        }
        r := ActivateState(name, path);
      } else {
        r := DisableState(name, path);
      }
    }

    /** `addState(name, spec)` */
    method AddState(name: string, spec: StateSpec) returns (r: Outcome)
      requires Valid()
      modifies this
      ensures Valid() && prototype == old(prototype)
      ensures r.Pass? <==> name !in old(state)
      ensures r.Fail? ==> r.error == AlreadyAdded(name) && state == old(state) && Repr == old(Repr)
      ensures r.Pass? ==>
        name in state && state[name].Single? && fresh(state[name].s) && NewMaster(state[name].s, name, spec) &&
        state == old(state)[name := state[name]] && Repr == old(Repr) + {state[name].s}
    {
      if name in state {
        return Fail(AlreadyAdded(name));
      }
      var s := new State(name, spec, teflon);
      ShapeAdd(state, prototype, Repr, teflon, name, s);
      state := state[name := Single(s)];
      Repr := Repr + {s};
      r := Pass;
    }

    /** `removeState(name, path)`: the target is disabled first, so only an
        active state can be removed. */
    method RemoveState(name: string, path: Ref) returns (r: Outcome)
      requires Valid()
      modifies this, Repr, teflon, teflon.dp`listening, teflon.dp`attributeLog
      ensures Valid()
      ensures !old(HasState(name, path)) ==> r == Fail(StateDoesNotExist(name)) && state == old(state)
      ensures old(InState(name, path)) == Ok(false) ==> r == Fail(AlreadyDisabled(name)) && state == old(state)
      ensures r.Fail? ==> state == old(state)
      ensures r.Pass? && !Truthy(path) ==> state == old(state) - {name}
      ensures r.Pass? && Truthy(path) ==>
        state.Keys == old(state.Keys) && state[name].PerPath? && state[name].byPath == old(state[name].byPath) - {path}
      ensures r.Pass? && Truthy(path) ==>
        state == old(state)[name := PerPath(Drop(old(state[name]).order, path), old(state[name]).byPath - {path})]
      ensures prototype == old(prototype)
      ensures r.Pass? ==> old(InState(name, path)) == Ok(true)
      ensures old(InState(name, path)) == Ok(true) ==> Ran(teflon, old(GetState(name, path)).value.s, false, r)
      ensures old(InState(name, path)) != Ok(true) ==> Untouched(teflon)
      ensures forall s :: s in old(Repr) && old(GetState(name, path)) != Ok(Single(s)) ==> unchanged(s)
    {
      if !HasState(name, path) {
        return Fail(StateDoesNotExist(name));
      }
      r := DisableState(name, path);
      if r.Fail? {
        return;
      }
      DropEntry(name, path);
    }

    /** The second half of `removeState`: delete the instance from the
        name's Map, or the name itself when there is no path. */
    method DropEntry(name: string, path: Ref)
      requires Valid() && GetState(name, path).Ok? && GetState(name, path).value.Single?
      modifies this
      ensures Valid()
      ensures !Truthy(path) ==> state == old(state) - {name}
      ensures Truthy(path) ==>
        state.Keys == old(state.Keys) && state[name].PerPath? && state[name].byPath == old(state[name].byPath) - {path}
      ensures Truthy(path) ==>
        state == old(state)[name := PerPath(Drop(old(state[name]).order, path), old(state[name]).byPath - {path})]
      ensures prototype == old(prototype) && Repr == old(Repr)
    {
      if Truthy(path) {
        ShapeDropInstance(state, prototype, Repr, teflon, name, path);
        state := state[name := PerPath(Drop(state[name].order, path), state[name].byPath - {path})];
      } else {
        ShapeDropSingle(state, prototype, Repr, teflon, name);
        state := state - {name};
      }
    }

    /** `setStateMap(map)`: adds every state in key order, then activates
        'default' if there is one. */
    method SetStateMap(defs: seq<(string, StateSpec)>) returns (r: Outcome)
      requires Valid()
      modifies this, Repr, teflon, teflon.dp`listening, teflon.dp`attributeLog
      ensures Valid()
      ensures r.Pass? ==> forall i :: 0 <= i < |defs| ==> defs[i].0 in state
      ensures r.Pass? ==> state.Keys == old(state.Keys) + NamesOf(defs, |defs|)
      ensures r.Pass? ==> forall n :: n in old(state) && n != "default" ==> state[n] == old(state[n])
      ensures r.Pass? ==> forall n :: n in state && n !in old(state) && n != "default" ==> state[n].Single?
      ensures r.Pass? && "default" in state ==> InState("default", Unset) == Ok(true)
      ensures forall s :: s in old(Repr) && GetState("default", Unset) != Ok(Single(s)) ==> unchanged(s)
    {
      r := AddStates(defs);
      if r.Fail? {
        return;
      }
      if HasState("default", Unset) {
        r := ActivateState("default", Unset);
      }
    }

    /** The `forEach` of `setStateMap`: `addState` for each key, stopping at
        the first that is already registered. The entries added before the
        stop stay added, and every entry registered before is kept. */
    method AddStates(defs: seq<(string, StateSpec)>) returns (r: Outcome)
      requires Valid()
      modifies this
      ensures Valid() && old(Repr) <= Repr && fresh(Repr - old(Repr)) && prototype == old(prototype)
      ensures r.Pass? ==> Registered(state, defs, |defs|, old(state))
      ensures r.Fail? ==>
        exists i :: 0 <= i < |defs| && FirstClash(defs, i, old(state.Keys)) &&
          r.error == AlreadyAdded(defs[i].0) && Registered(state, defs, i, old(state))
    {
      ghost var before := state;
      r := Pass;
      var i := 0;
      while i < |defs| && r.Pass?
        invariant i <= |defs| && Valid() && old(Repr) <= Repr && fresh(Repr - old(Repr)) && prototype == old(prototype)
        invariant r.Pass? ==> Registered(state, defs, i, before)
        invariant r.Fail? ==>
          0 < i && FirstClash(defs, i - 1, before.Keys) &&
          r.error == AlreadyAdded(defs[i - 1].0) && Registered(state, defs, i - 1, before)
      {
        ghost var st := state;
        r := AddState(defs[i].0, defs[i].1);
        if r.Pass? {
          RegisteredNext(st, defs, i, before, state[defs[i].0]);
        } else {
          ClashAt(st, defs, i, before);
        }
        i := i + 1;
      }
    }
  }
}
