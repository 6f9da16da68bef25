/** The event delegator (src/events.js): a table from event type to
    dealiased path to an ordered action list, one root listener per event
    type in the table, and delegated dispatch that walks the originating
    node's path upwards until a prefix has bindings. */
module Events {
  import opened Base
  import opened Dom

  /** type -> (dealiased path -> ordered action list) */
  type Table = map<EventType, map<Ref, seq<Action>>>

  predicate NoDuplicates(s: seq<Action>)
  {
    forall i, j :: 0 <= i < j < |s| ==> s[i] != s[j]
  }

  /** Every stored path entry and every stored list is non-empty, and no list
      holds an action twice. */
  ghost predicate WellFormed(h: Table)
  {
    forall t :: t in h ==> EntryOk(h[t])
  }

  /** One type's entry: at least one path, each with a non-empty list
      without duplicates. */
  ghost predicate EntryOk(byPath: map<Ref, seq<Action>>)
  {
    byPath != map[] && forall k :: k in byPath ==> byPath[k] != [] && NoDuplicates(byPath[k])
  }

  /** The actions bound to (type, path); empty when there is no entry. */
  function Actions(h: Table, t: EventType, k: Ref): seq<Action>
  {
    if t in h && k in h[t] then h[t][k] else []
  }

  predicate Bound(h: Table, t: EventType, k: Ref, a: Action)
  {
    a in Actions(h, t, k)
  }

  /** `actions.splice(actions.indexOf(a), 1)` when `a` is present. */
  function Without(s: seq<Action>, a: Action): (r: seq<Action>)
    ensures a !in s ==> r == s
    ensures a in s ==> |r| == |s| - 1
    ensures forall x :: x in r ==> x in s
    ensures NoDuplicates(s) ==> NoDuplicates(r) && a !in r && forall x :: x in s && x != a ==> x in r
  {
    if s == [] then []
    else if s[0] == a then s[1..]
    else
      var rest := Without(s[1..], a);
      assert NoDuplicates(s) ==> s[0] !in rest;
      [s[0]] + rest
  }

  /** `addEventHandler` on the table, with the path already dealiased. */
  function Added(h: Table, t: EventType, k: Ref, a: Action): Result<Table>
  {
    var byPath := if t in h then h[t] else map[];
    var actions := if k in byPath then byPath[k] else [];
    if a in actions then Err(DuplicateAction(a, k))
    else Ok(h[t := byPath[k := actions + [a]]])
  }

  /** `removeEventHandler` on the table, with the path already dealiased. */
  function Removed(h: Table, t: EventType, k: Ref, a: Action): Table
  {
    if t in h && k in h[t] && a in h[t][k] then
      var rest := Without(h[t][k], a);
      if rest != [] then h[t := h[t][k := rest]]
      else if h[t] - {k} != map[] then h[t := h[t] - {k}]
      else h - {t}
    else h
  }

  /** `removeEventHandlers(types)` selects every type when the list is empty. */
  predicate Selected(types: seq<EventType>, t: EventType)
  {
    types == [] || t in types
  }

  function RemovedTypes(h: Table, types: seq<EventType>): (r: Table)
    ensures types == [] ==> r == map[]
    ensures forall t :: t in r <==> t in h && t !in types && types != []
    ensures forall t :: t in r ==> r[t] == h[t]
    ensures WellFormed(h) ==> WellFormed(r)
  {
    map t | t in h && !Selected(types, t) :: h[t]
  }

  lemma NoDuplicatesAppend(s: seq<Action>, a: Action)
    requires NoDuplicates(s) && a !in s
    ensures NoDuplicates(s + [a])
  {
  }

  /** `h2` is `h1` with `a` appended to the list of (t, k) and every other
      list as it was. */
  ghost predicate AppendedAt(h1: Table, h2: Table, t: EventType, k: Ref, a: Action)
  {
    forall t', k' {:trigger Actions(h2, t', k')} ::
      Actions(h2, t', k') == if t' == t && k' == k then Actions(h1, t', k') + [a] else Actions(h1, t', k')
  }

  /** `h2` is `h1` with `a` taken out of the list of (t, k) and every other
      list as it was. */
  ghost predicate DroppedAt(h1: Table, h2: Table, t: EventType, k: Ref, a: Action)
  {
    forall t', k' {:trigger Actions(h2, t', k')} ::
      Actions(h2, t', k') == if t' == t && k' == k then Without(Actions(h1, t', k'), a) else Actions(h1, t', k')
  }

  /** Adding fails exactly on a duplicate; otherwise it appends the action to
      its list, keeps the table well formed, adds the type to the keys and
      changes no other (type, path) pair. */
  lemma AddedSpec(h: Table, t: EventType, k: Ref, a: Action)
    requires WellFormed(h)
    ensures Added(h, t, k, a).Err? <==> Bound(h, t, k, a)
    ensures Added(h, t, k, a).Err? ==> Added(h, t, k, a).error == DuplicateAction(a, k)
    ensures Added(h, t, k, a).Ok? ==>
      var h' := Added(h, t, k, a).value;
      && WellFormed(h')
      && h'.Keys == h.Keys + {t}
      && AppendedAt(h, h', t, k, a)
  {
    if !Bound(h, t, k, a) {
      var h' := Added(h, t, k, a).value;
      AddedEntryOk(h, t, k, a);
      forall t' | t' in h'
        ensures EntryOk(h'[t'])
      {
      }
    }
  }

  lemma AddedEntryOk(h: Table, t: EventType, k: Ref, a: Action)
    requires WellFormed(h) && !Bound(h, t, k, a)
    ensures EntryOk(Added(h, t, k, a).value[t])
  {
    var byPath := if t in h then h[t] else map[];
    var actions := if k in byPath then byPath[k] else [];
    if k in byPath {
      NoDuplicatesAppend(actions, a);
    }
    var entry := byPath[k := actions + [a]];
    assert entry == Added(h, t, k, a).value[t];
    assert k in entry;
  }

  /** Removing deletes exactly that action: the list loses it, every other
      (type, path) pair keeps its list, and the table stays well formed, so
      an emptied path entry and an emptied type are gone. Removing an absent
      binding changes nothing. */
  lemma RemovedSpec(h: Table, t: EventType, k: Ref, a: Action)
    requires WellFormed(h)
    ensures !Bound(h, t, k, a) ==> Removed(h, t, k, a) == h
    ensures WellFormed(Removed(h, t, k, a))
    ensures Removed(h, t, k, a).Keys <= h.Keys
    ensures DroppedAt(h, Removed(h, t, k, a), t, k, a)
  {
    var h' := Removed(h, t, k, a);
    if Bound(h, t, k, a) {
      var rest := Without(h[t][k], a);
      if rest != [] {
        assert WellFormed(h');
      } else if h[t] - {k} != map[] {
        assert WellFormed(h');
      }
    }
    forall t', k' ensures Actions(h', t', k') ==
      if t' == t && k' == k then Without(Actions(h, t', k'), a) else Actions(h, t', k')
    {
      if t' == t && k' != k && Bound(h, t, k, a) {
        assert k' in h[t] - {k} <==> k' in h[t];
      }
    }
  }

  /** A well-formed table is determined by the action lists it gives each
      (type, path) pair. */
  lemma ActionsDetermine(h1: Table, h2: Table)
    requires WellFormed(h1) && WellFormed(h2)
    requires forall t, k :: Actions(h1, t, k) == Actions(h2, t, k)
    ensures h1 == h2
  {
    forall t | t in h1 ensures t in h2 {
      var k :| k in h1[t];
      assert Actions(h1, t, k) != [];
    }
    forall t | t in h2 ensures t in h1 {
      var k :| k in h2[t];
      assert Actions(h2, t, k) != [];
    }
    forall t | t in h1 ensures h1[t] == h2[t] {
      forall k | k in h1[t] ensures k in h2[t] && h1[t][k] == h2[t][k] {
        assert Actions(h1, t, k) == Actions(h2, t, k);
      }
      forall k | k in h2[t] ensures k in h1[t] {
        assert Actions(h1, t, k) == Actions(h2, t, k);
      }
    }
  }

  lemma {:induction false} WithoutAppended(s: seq<Action>, a: Action)
    requires a !in s
    ensures Without(s + [a], a) == s
  {
    if s != [] {
      assert (s + [a])[0] == s[0] != a;
      assert (s + [a])[1..] == s[1..] + [a];
      WithoutAppended(s[1..], a);
      assert Without(s + [a], a) == [s[0]] + Without(s[1..] + [a], a);
    }
  }

  /** Removing a binding that was just added, and was not there before,
      gives back the table exactly. */
  lemma {:induction false} RemoveUndoesAdd(h: Table, t: EventType, k: Ref, a: Action)
    requires WellFormed(h) && !Bound(h, t, k, a)
    ensures Added(h, t, k, a).Ok?
    ensures Removed(Added(h, t, k, a).value, t, k, a) == h
  {
    AddedSpec(h, t, k, a);
    var h1 := Added(h, t, k, a).value;
    RemovedSpec(h1, t, k, a);
    var h2 := Removed(h1, t, k, a);
    WithoutAppended(Actions(h, t, k), a);
    forall t', k' ensures Actions(h2, t', k') == Actions(h, t', k') {
      assert Actions(h2, t', k') == if t' == t && k' == k then Without(Actions(h1, t', k'), a) else Actions(h1, t', k');
      assert Actions(h1, t', k') == if t' == t && k' == k then Actions(h, t', k') + [a] else Actions(h, t', k');
    }
    ActionsDetermine(h2, h);
  }

  lemma MultisetOfAdded<T>(s: set<T>, x: T)
    requires x !in s
    ensures multiset(s + {x}) == multiset(s) + multiset{x}
  {
  }

  /** The table part-way through `removeEventHandlers`: the types not
      visited yet are all still there, the visited ones only if kept. */
  ghost function Unvisited(h: Table, types: seq<EventType>, pending: set<EventType>): Table
  {
    map t | t in h && (t in pending || !Selected(types, t)) :: h[t]
  }

  lemma PendingStart(h: Table, types: seq<EventType>)
    ensures Unvisited(h, types, h.Keys) == h
  {
  }

  /** Visiting `key` removes it exactly when it is selected. */
  lemma PendingStep(h: Table, types: seq<EventType>, pending: set<EventType>, key: EventType)
    requires key in pending && pending <= h.Keys
    ensures key in Unvisited(h, types, pending)
    ensures Selected(types, key) ==>
      Unvisited(h, types, pending - {key}) == Unvisited(h, types, pending) - {key}
    ensures !Selected(types, key) ==>
      Unvisited(h, types, pending - {key}) == Unvisited(h, types, pending)
  {
  }

  lemma PendingDone(h: Table, types: seq<EventType>)
    ensures Unvisited(h, types, {}) == RemovedTypes(h, types)
  {
  }

  lemma MultisetOfRemoved<T>(s: set<T>, x: T)
    requires x in s
    ensures multiset(s - {x}) == multiset(s) - multiset{x}
  {
  }

  /** Registering through an alias and through the path it stands for
      reaches the same entry. */
  lemma AliasAndPathShareEntry(h: Table, aliases: map<string, Path>, t: EventType, name: string, a: Action)
    requires name in aliases
    ensures Dealias(aliases, Alias(name)) == Dealias(aliases, At(aliases[name]))
    ensures Added(h, t, Dealias(aliases, Alias(name)), a) == Added(h, t, Dealias(aliases, At(aliases[name])), a)
  {
  }

  // ---------------------------------------------------------------------
  // Delegated dispatch (`_handleEvent`)

  /** One `emit(action, ev, el)`: the action name and the node passed along. */
  datatype Emission = Emission(action: Action, node: NodeId)

  function Emit(actions: seq<Action>, node: NodeId): (e: seq<Emission>)
    ensures |e| == |actions|
    ensures forall i :: 0 <= i < |actions| ==> e[i] == Emission(actions[i], node)
  {
    seq(|actions|, i requires 0 <= i < |actions| => Emission(actions[i], node))
  }

  /** The key looked up for prefix `p`: the prefix itself, unless it has no
      binding of its own and its node carries a (non-empty) owner tag that
      differs from it, in which case the owner. */
  function LookupKey(byPath: map<Ref, seq<Action>>, p: Path, owner: Option<Path>): Ref
  {
    if At(p) !in byPath && owner.Some? && owner.value != [] && owner.value != p
    then At(owner.value)
    else At(p)
  }

  predicate Hit(byPath: map<Ref, seq<Action>>, p: Path, ownerAt: Path -> Option<Path>)
  {
    LookupKey(byPath, p, ownerAt(p)) in byPath
  }

  /** The emissions of one event whose source node is at `src`: the longest
      non-empty prefix that hits fires all its actions, with that prefix's
      node. */
  function Dispatch(byPath: map<Ref, seq<Action>>, src: Path,
                    nodeAt: Path -> NodeId, ownerAt: Path -> Option<Path>): seq<Emission>
    decreases |src|
  {
    if src == [] then []
    else if Hit(byPath, src, ownerAt) then
      Emit(byPath[LookupKey(byPath, src, ownerAt(src))], nodeAt(src))
    else Dispatch(byPath, src[..|src| - 1], nodeAt, ownerAt)
  }

  /** First match wins: dispatch emits nothing when no non-empty prefix of
      the source path hits, and otherwise exactly the actions of the longest
      prefix that hits, in list order, each with the node at that prefix. */
  lemma {:induction false} DispatchIsFirstMatch(byPath: map<Ref, seq<Action>>, src: Path,
                                                nodeAt: Path -> NodeId, ownerAt: Path -> Option<Path>)
    ensures (forall n :: 1 <= n <= |src| ==> !Hit(byPath, src[..n], ownerAt)) ==>
      Dispatch(byPath, src, nodeAt, ownerAt) == []
    ensures forall n :: 1 <= n <= |src| && Hit(byPath, src[..n], ownerAt) &&
                        (forall m :: n < m <= |src| ==> !Hit(byPath, src[..m], ownerAt)) ==>
      Dispatch(byPath, src, nodeAt, ownerAt) ==
        Emit(byPath[LookupKey(byPath, src[..n], ownerAt(src[..n]))], nodeAt(src[..n]))
    decreases |src|
  {
    if src != [] {
      var up := src[..|src| - 1];
      assert src[..|src|] == src;
      forall n | 1 <= n <= |up| ensures up[..n] == src[..n] { }
      DispatchIsFirstMatch(byPath, up, nodeAt, ownerAt);
    }
  }

  /** A binding made once on a template row's path fires for a generated
      row that has no binding of its own, and is emitted with the row's
      own node. */
  lemma RowInheritsOwnerBinding(byPath: map<Ref, seq<Action>>, row: Path, owner: Path,
                                nodeAt: Path -> NodeId, ownerAt: Path -> Option<Path>)
    requires row != [] && owner != [] && owner != row
    requires At(row) !in byPath && At(owner) in byPath
    requires ownerAt(row) == Some(owner)
    ensures Dispatch(byPath, row, nodeAt, ownerAt) == Emit(byPath[At(owner)], nodeAt(row))
  {
  }

  class Delegator {
    const dp: Pointer
    var handlers: Table

    /** The table is well formed and exactly one root listener is installed
        for each type in it. */
    ghost predicate Valid()
      reads this, dp
    {
      WellFormed(handlers) && dp.listening == multiset(handlers.Keys)
    }

    constructor (dp: Pointer)
      requires dp.listening == multiset{}
      ensures Valid() && this.dp == dp && handlers == map[]
    {
      this.dp := dp;
      handlers := map[];
    }

    /** `addEventHandler(type, alias, action)`. The source creates the type
        entry (installing its listener) and the path entry before it looks
        for a duplicate; in a well-formed table both already exist whenever
        the action is a duplicate, so creating them only on success is the
        same. */
    method AddEventHandler(t: EventType, alias: Ref, action: Action) returns (r: Outcome)
      requires Valid()
      modifies this, dp`listening
      ensures Valid()
      ensures Added(old(handlers), t, Dealias(dp.aliases, alias), action).Ok? ==>
        r == Pass && handlers == Added(old(handlers), t, Dealias(dp.aliases, alias), action).value
      ensures Added(old(handlers), t, Dealias(dp.aliases, alias), action).Err? ==>
        r == Fail(Added(old(handlers), t, Dealias(dp.aliases, alias), action).error) &&
        handlers == old(handlers) && dp.listening == old(dp.listening)
    {
      var path := Dealias(dp.aliases, alias);
      ghost var h0 := handlers;
      var byPath := if t in handlers then handlers[t] else map[];
      var actions := if path in byPath then byPath[path] else [];
      if action in actions {
        return Fail(DuplicateAction(action, path));
      }
      if t !in handlers {
        MultisetOfAdded(handlers.Keys, t);
        dp.On(t);
      }
      handlers := handlers[t := byPath[path := actions + [action]]];
      AddedSpec(h0, t, path, action);
      r := Pass;
    }

    /** `removeEventHandler(type, alias, action)`: splice the action out of
        its list; an emptied list drops its path entry, and an emptied type
        entry drops the type and its root listener. */
    method RemoveEventHandler(t: EventType, alias: Ref, action: Action)
      requires Valid()
      modifies this, dp`listening
      ensures Valid()
      ensures handlers == Removed(old(handlers), t, Dealias(dp.aliases, alias), action)
    {
      var path := Dealias(dp.aliases, alias);
      ghost var h0 := handlers;
      RemovedSpec(h0, t, path, action);
      if t in handlers && path in handlers[t] && action in handlers[t][path] {
        var actions := Without(handlers[t][path], action);
        if actions != [] {
          handlers := handlers[t := handlers[t][path := actions]];
          assert handlers.Keys == h0.Keys;
        } else if handlers[t] - {path} != map[] {
          handlers := handlers[t := handlers[t] - {path}];
          assert handlers.Keys == h0.Keys;
        } else {
          MultisetOfRemoved(handlers.Keys, t);
          handlers := handlers - {t};
          dp.Off(t);
        }
      }
    }

    /** `removeEventHandlers(types)`: an empty list removes every type; a
        single type is passed as a one-element list. */
    method RemoveEventHandlers(types: seq<EventType>)
      requires Valid()
      modifies this, dp`listening
      ensures Valid()
      ensures handlers == RemovedTypes(old(handlers), types)
    {
      ghost var h0 := handlers;
      var pending := handlers.Keys;
      PendingStart(h0, types);
      while pending != {}
        invariant pending <= h0.Keys
        invariant handlers == Unvisited(h0, types, pending)
        invariant dp.listening == multiset(handlers.Keys)
        decreases pending
      {
        var key :| key in pending;
        PendingStep(h0, types, pending, key);
        if types == [] || key in types {
          MultisetOfRemoved(handlers.Keys, key);
          dp.Off(key);
          handlers := handlers - {key};
        }
        pending := pending - {key};
      }
      PendingDone(h0, types);
    }

    /** `_handleEvent` for an event of type `t` whose source node is at
        `src`; `nodeAt` and `ownerAt` read the node at a path and its
        `teflonOwner` tag. Returns the emissions in order. */
    method HandleEvent(t: EventType, src: Path, nodeAt: Path -> NodeId, ownerAt: Path -> Option<Path>)
      returns (emitted: seq<Emission>)
      ensures t !in handlers ==> emitted == []
      ensures t in handlers ==> emitted == Dispatch(handlers[t], src, nodeAt, ownerAt)
    {
      emitted := [];
      if t !in handlers {
        return;
      }
      var byPath := handlers[t];
      var cp := src;
      while |cp| > 0
        invariant Dispatch(byPath, src, nodeAt, ownerAt) == Dispatch(byPath, cp, nodeAt, ownerAt)
        invariant emitted == []
        decreases |cp|
      {
        var epath := At(cp);
        if epath !in byPath {
          var owner := ownerAt(cp);
          if owner.Some? && owner.value != [] && owner.value != cp {
            epath := At(owner.value);
          }
        }
        if epath in byPath {
          var actions := byPath[epath];
          var el := nodeAt(cp);
          for i := 0 to |actions|
            invariant emitted == Emit(actions[..i], el)
          {
            emitted := emitted + [Emission(actions[i], el)];
          }
          assert actions[..|actions|] == actions;
          return;
        }
        cp := cp[..|cp| - 1];
      }
    }
  }
}
