/** A layered state (src/state.js): a named bundle of event changes and
    attribute changes that can be switched on and off. A master state has no
    path; an instance state, cloned from a master, writes its path into every
    change that does not name one. */
module StateModel {
  import opened Base
  import opened Dom
  import opened Events
  import opened Commands

  /** The definition a state is built from: `{events, attributes}`, either
      of which may be missing. */
  datatype StateSpec = StateSpec(events: Option<seq<Change>>, attributes: Option<seq<Change>>)

  /** `_applyPathToEvent` on one change. */
  function FillPath(c: Change, path: Ref): Change
  {
    if Truthy(path) && !Truthy(c.path) then c.(path := path) else c
  }

  /** The changes after the first `n` of them have had the instance path
      applied. */
  function FillPaths(cs: seq<Change>, path: Ref, n: nat): (r: seq<Change>)
    ensures |r| == |cs|
    ensures !Truthy(path) ==> r == cs
    ensures forall i :: 0 <= i < |cs| ==>
      r[i].op == cs[i].op && r[i].name == cs[i].name && r[i].val == cs[i].val
    ensures forall i :: 0 <= i < |cs| && Truthy(cs[i].path) ==> r[i].path == cs[i].path
    ensures forall i :: 0 <= i < |cs| && i < n && Truthy(path) && !Truthy(cs[i].path) ==> r[i].path == path
    ensures forall i :: 0 <= i < |cs| && n <= i ==> r[i] == cs[i]
  {
    seq(|cs|, i requires 0 <= i < |cs| => if i < n then FillPath(cs[i], path) else cs[i])
  }

  /** Applying the path to one more change. */
  lemma FillPathsStep(cs: seq<Change>, path: Ref, i: nat)
    requires i < |cs|
    ensures var r := FillPaths(cs, path, i); r[i := FillPath(r[i], path)] == FillPaths(cs, path, i + 1)
  {
  }

  /** The changes a state holds, with a missing list read as none. */
  function Listed(o: Option<seq<Change>>): seq<Change>
  {
    if o.Some? then o.value else []
  }

  function FillSome(o: Option<seq<Change>>, path: Ref, n: nat): Option<seq<Change>>
  {
    if o.Some? then Some(FillPaths(o.value, path, n)) else None
  }

  /** The attribute call `activate` (`SetAttributes`) or `disable`
      (`RevertAttributes`) makes, if the state has attributes. */
  function AttributeCalls(o: Option<seq<Change>>, activating: bool): seq<AttrCall>
  {
    if o.None? then []
    else if activating then [SetAttributes(o.value)]
    else [AttrCall.RevertAttributes(o.value)]
  }

  /** `_activateEvent` / `_disableEvent` for one change. */
  function Toggle(c: Change, activating: bool): Command
  {
    if activating then ActivateEvent(c) else DisableEvent(c)
  }

  /** How far a run over the event changes got: the handler table after it,
      how many changes were reached (and so had the path applied), and
      whether it ran to the end. */
  datatype Progress = Progress(table: Table, done: nat, outcome: Outcome)

  /** The event loop of `activate` / `disable`: in declaration order, apply
      the path, then run the change's command. A duplicate action throws,
      which stops the loop after the change that threw. */
  function RunChanges(h: Table, aliases: map<string, Path>, cs: seq<Change>, path: Ref, activating: bool): (p: Progress)
    ensures p.done <= |cs|
    ensures p.outcome.Pass? ==> p.done == |cs|
    ensures p.outcome.Fail? ==> 1 <= p.done && p.outcome.error.DuplicateAction?
    decreases |cs|
  {
    if cs == [] then Progress(h, 0, Pass)
    else
      var prev := RunChanges(h, aliases, cs[..|cs| - 1], path, activating);
      if prev.outcome.Fail? then prev
      else
        var c := FillPath(cs[|cs| - 1], path);
        match Run(prev.table, aliases, Toggle(c, activating))
        case Ok(t) => Progress(t, |cs|, Pass)
        case Err(e) => Progress(prev.table, |cs|, Fail(e))
  }

  /** One more change of the event loop, as `RunChanges` takes it. */
  lemma RunChangesStep(h: Table, aliases: map<string, Path>, cs: seq<Change>, path: Ref, activating: bool, i: nat)
    requires i < |cs|
    requires RunChanges(h, aliases, cs[..i], path, activating).outcome.Pass?
    ensures var g := RunChanges(h, aliases, cs[..i], path, activating).table;
      var res := Run(g, aliases, Toggle(FillPath(cs[i], path), activating));
      RunChanges(h, aliases, cs[..i + 1], path, activating) ==
        if res.Ok? then Progress(res.value, i + 1, Pass) else Progress(g, i + 1, Fail(res.error))
  {
    assert cs[..i + 1][..i] == cs[..i];
  }

  /** The event loop has run the first `i` changes without a failure and
      left the table `g`. */
  ghost predicate Reached(h: Table, aliases: map<string, Path>, cs: seq<Change>, path: Ref, activating: bool, i: nat, g: Table)
    requires i <= |cs|
  {
    RunChanges(h, aliases, cs[..i], path, activating) == Progress(g, i, Pass)
  }

  /** Running change `i` after `Reached(..., i, g)`: on success the loop has
      reached `i + 1`; on failure the whole run ends there. */
  lemma ReachedStep(h: Table, aliases: map<string, Path>, cs: seq<Change>, path: Ref, activating: bool, i: nat, g: Table)
    requires i < |cs| && Reached(h, aliases, cs, path, activating, i, g)
    ensures var res := Run(g, aliases, Toggle(FillPath(cs[i], path), activating));
      (res.Ok? ==> Reached(h, aliases, cs, path, activating, i + 1, res.value)) &&
      (res.Err? ==> RunChanges(h, aliases, cs, path, activating) == Progress(g, i + 1, Fail(res.error)))
  {
    RunChangesStep(h, aliases, cs, path, activating, i);
    if RunChanges(h, aliases, cs[..i + 1], path, activating).outcome.Fail? {
      FailureStops(h, aliases, cs, path, activating, i + 1);
    }
  }

  /** Once a prefix of the changes has failed, the rest are not reached. */
  lemma {:induction false} FailureStops(h: Table, aliases: map<string, Path>, cs: seq<Change>, path: Ref, activating: bool, m: nat)
    requires m <= |cs|
    requires RunChanges(h, aliases, cs[..m], path, activating).outcome.Fail?
    ensures RunChanges(h, aliases, cs, path, activating) == RunChanges(h, aliases, cs[..m], path, activating)
    decreases |cs| - m
  {
    if m < |cs| {
      assert cs[..|cs| - 1][..m] == cs[..m];
      FailureStops(h, aliases, cs[..|cs| - 1], path, activating, m);
    } else {
      assert cs[..m] == cs;
    }
  }

  /** Two change lists that agree once the path is applied run the same way;
      in particular a list whose paths were already applied runs as the
      original does. */
  lemma {:induction false} RunChangesAfterFill(h: Table, aliases: map<string, Path>, xs: seq<Change>, ys: seq<Change>, path: Ref, activating: bool)
    requires |xs| == |ys|
    requires forall i :: 0 <= i < |xs| ==> FillPath(xs[i], path) == FillPath(ys[i], path)
    ensures RunChanges(h, aliases, xs, path, activating) == RunChanges(h, aliases, ys, path, activating)
    decreases |xs|
  {
    if xs != [] {
      RunChangesAfterFill(h, aliases, xs[..|xs| - 1], ys[..|ys| - 1], path, activating);
    }
  }

  /** A resolved event binding: the type, the dealiased path and the action. */
  datatype Bind = Bind(eventType: EventType, key: Ref, action: Action)

  /** The binding a change names once the path is applied and dealiased. */
  function BindingOf(aliases: map<string, Path>, c: Change, path: Ref): Bind
  {
    var f := FillPath(c, path);
    Bind(f.name, Dealias(aliases, f.path), f.val)
  }

  function Bindings(aliases: map<string, Path>, cs: seq<Change>, path: Ref): (bs: seq<Bind>)
    ensures |bs| == |cs|
    ensures forall i :: 0 <= i < |cs| ==> bs[i] == BindingOf(aliases, cs[i], path)
  {
    seq(|cs|, i requires 0 <= i < |cs| => BindingOf(aliases, cs[i], path))
  }

  lemma BindingsSnoc(aliases: map<string, Path>, init: seq<Change>, c: Change, path: Ref)
    ensures Bindings(aliases, init + [c], path) == Bindings(aliases, init, path) + [BindingOf(aliases, c, path)]
  {
    var cs := init + [c];
    assert forall i :: 0 <= i < |init| ==> cs[i] == init[i];
  }

  predicate AllAdds(cs: seq<Change>)
  {
    forall i :: 0 <= i < |cs| ==> cs[i].op != "remove"
  }

  predicate BoundIn(h: Table, b: Bind)
  {
    Bound(h, b.eventType, b.key, b.action)
  }

  /** None of the bindings is in `h` already. */
  predicate NoneBound(h: Table, bs: seq<Bind>)
  {
    forall i :: 0 <= i < |bs| ==> !BoundIn(h, bs[i])
  }

  /** None of the bindings is in `h` already and no two are the same. */
  predicate Unbound(h: Table, bs: seq<Bind>)
  {
    NoneBound(h, bs) && forall i, j :: 0 <= i < j < |bs| ==> bs[i] != bs[j]
  }

  /** The actions the bindings give (t, k), in order. */
  function ActionsAt(bs: seq<Bind>, t: EventType, k: Ref): seq<Action>
    decreases |bs|
  {
    if bs == [] then []
    else
      var b := bs[|bs| - 1];
      ActionsAt(bs[..|bs| - 1], t, k) + (if b.eventType == t && b.key == k then [b.action] else [])
  }

  lemma ActionsAtSnoc(bs: seq<Bind>, b: Bind, t: EventType, k: Ref)
    ensures ActionsAt(bs + [b], t, k) ==
      ActionsAt(bs, t, k) + (if b.eventType == t && b.key == k then [b.action] else [])
  {
    assert (bs + [b])[..|bs|] == bs;
  }

  lemma {:induction false} ActionsAtAppend(xs: seq<Bind>, ys: seq<Bind>, t: EventType, k: Ref)
    ensures ActionsAt(xs + ys, t, k) == ActionsAt(xs, t, k) + ActionsAt(ys, t, k)
    decreases |ys|
  {
    if ys == [] {
      assert xs + ys == xs;
    } else {
      var last := ys[|ys| - 1];
      assert xs + ys == (xs + ys[..|ys| - 1]) + [last];
      ActionsAtSnoc(xs + ys[..|ys| - 1], last, t, k);
      ActionsAtAppend(xs, ys[..|ys| - 1], t, k);
    }
  }

  lemma ActionsAtCons(b: Bind, rest: seq<Bind>, t: EventType, k: Ref)
    ensures ActionsAt([b] + rest, t, k) ==
      (if b.eventType == t && b.key == k then [b.action] else []) + ActionsAt(rest, t, k)
  {
    ActionsAtAppend([b], rest, t, k);
    assert [b][..0] == [];
  }

  /** An action is listed for (t, k) exactly when one of the bindings binds
      it there. */
  lemma {:induction false} InActionsAt(bs: seq<Bind>, t: EventType, k: Ref, a: Action)
    ensures a in ActionsAt(bs, t, k) <==> Bind(t, k, a) in bs
    decreases |bs|
  {
    if bs != [] {
      var init := bs[..|bs| - 1];
      assert bs == init + [bs[|bs| - 1]];
      InActionsAt(init, t, k, a);
    }
  }

  lemma UnboundSnoc(h: Table, bs: seq<Bind>, b: Bind)
    ensures Unbound(h, bs + [b]) <==> Unbound(h, bs) && !BoundIn(h, b) && b !in bs
  {
    var all := bs + [b];
    assert all[|bs|] == b;
    assert forall i :: 0 <= i < |bs| ==> all[i] == bs[i];
  }

  /** `g` holds, for every (type, path), the actions of `h` followed by the
      actions the bindings give it. */
  ghost predicate Extends(g: Table, h: Table, bs: seq<Bind>)
  {
    forall t, k {:trigger Actions(g, t, k)} :: Actions(g, t, k) == Actions(h, t, k) + ActionsAt(bs, t, k)
  }

  /** One activation step succeeds exactly when its binding is neither in
      `h` nor among the earlier ones. */
  lemma AddStepSucceeds(h: Table, g: Table, bs: seq<Bind>, b: Bind)
    requires WellFormed(g) && Extends(g, h, bs)
    ensures Added(g, b.eventType, b.key, b.action).Ok? <==> !BoundIn(h, b) && b !in bs
  {
    AddedSpec(g, b.eventType, b.key, b.action);
    InActionsAt(bs, b.eventType, b.key, b.action);
    assert Actions(g, b.eventType, b.key) == Actions(h, b.eventType, b.key) + ActionsAt(bs, b.eventType, b.key);
  }

  lemma AddStepAt(h: Table, g: Table, g': Table, bs: seq<Bind>, b: Bind, t: EventType, k: Ref)
    requires Actions(g, t, k) == Actions(h, t, k) + ActionsAt(bs, t, k)
    requires Actions(g', t, k) ==
      if t == b.eventType && k == b.key then Actions(g, t, k) + [b.action] else Actions(g, t, k)
    ensures Actions(g', t, k) == Actions(h, t, k) + ActionsAt(bs + [b], t, k)
  {
    ActionsAtSnoc(bs, b, t, k);
  }

  /** A successful activation step extends `h` by one more binding. */
  lemma AddStepExtends(h: Table, g: Table, g': Table, bs: seq<Bind>, b: Bind)
    requires Extends(g, h, bs) && AppendedAt(g, g', b.eventType, b.key, b.action)
    ensures Extends(g', h, bs + [b])
  {
    forall t, k ensures Actions(g', t, k) == Actions(h, t, k) + ActionsAt(bs + [b], t, k) {
      AddStepAt(h, g, g', bs, b, t, k);
    }
  }

  /** Activating 'add' changes succeeds exactly when none of their bindings
      is there already and no two are the same; it then appends each action
      to its (type, path) list. */
  lemma {:induction false} ActivationOfAdds(h: Table, aliases: map<string, Path>, cs: seq<Change>, path: Ref)
    requires WellFormed(h) && AllAdds(cs)
    ensures RunChanges(h, aliases, cs, path, true).outcome.Pass? <==> Unbound(h, Bindings(aliases, cs, path))
    ensures RunChanges(h, aliases, cs, path, true).outcome.Pass? ==>
      WellFormed(RunChanges(h, aliases, cs, path, true).table) &&
      Extends(RunChanges(h, aliases, cs, path, true).table, h, Bindings(aliases, cs, path))
    decreases |cs|
  {
    if cs == [] {
      assert Extends(h, h, []);
      return;
    }
    var n := |cs| - 1;
    var init := cs[..n];
    var c := cs[n];
    assert cs == init + [c];
    assert AllAdds(init);
    ActivationOfAdds(h, aliases, init, path);
    var b := BindingOf(aliases, c, path);
    BindingsSnoc(aliases, init, c, path);
    UnboundSnoc(h, Bindings(aliases, init, path), b);
    var prev := RunChanges(h, aliases, init, path, true);
    if prev.outcome.Pass? {
      var f := FillPath(c, path);
      assert Toggle(f, true) == AddHandler(b.eventType, f.path, b.action);
      AddStepSucceeds(h, prev.table, Bindings(aliases, init, path), b);
      AddedSpec(prev.table, b.eventType, b.key, b.action);
      if Added(prev.table, b.eventType, b.key, b.action).Ok? {
        AddStepExtends(h, prev.table, Added(prev.table, b.eventType, b.key, b.action).value, Bindings(aliases, init, path), b);
      }
    }
  }

  /** Removing the first occurrence of an action that sits between a prefix
      without it and any suffix leaves prefix and suffix. */
  lemma {:induction false} WithoutMiddle(s: seq<Action>, a: Action, r: seq<Action>)
    requires a !in s
    ensures Without(s + [a] + r, a) == s + r
    decreases |s|
  {
    if s == [] {
      assert s + [a] + r == [a] + r;
      assert ([a] + r)[1..] == r;
    } else {
      var x := s + [a] + r;
      assert x[0] == s[0] != a;
      assert x[1..] == s[1..] + [a] + r;
      WithoutMiddle(s[1..], a, r);
      assert Without(x, a) == [s[0]] + Without(x[1..], a);
      ConsAppend(s, r);
    }
  }

  lemma RemoveStepAt(h: Table, g: Table, g': Table, b: Bind, rest: seq<Bind>, t: EventType, k: Ref)
    requires Actions(g, t, k) == Actions(h, t, k) + ActionsAt([b] + rest, t, k)
    requires !BoundIn(h, b)
    requires Actions(g', t, k) ==
      if t == b.eventType && k == b.key then Without(Actions(g, t, k), b.action) else Actions(g, t, k)
    ensures Actions(g', t, k) == Actions(h, t, k) + ActionsAt(rest, t, k)
  {
    ActionsAtCons(b, rest, t, k);
    var before := Actions(h, t, k);
    var after := ActionsAt(rest, t, k);
    if t == b.eventType && k == b.key {
      AppendAssoc(before, [b.action], after);
      WithoutMiddle(before, b.action, after);
    } else {
      assert ActionsAt([b] + rest, t, k) == after;
    }
  }


  /** One disabling step: removing the first pending binding from a table
      that extends `h` by it and the ones after it. */
  lemma RemoveStep(h: Table, g: Table, g': Table, b: Bind, rest: seq<Bind>)
    requires Extends(g, h, [b] + rest) && !BoundIn(h, b)
    requires DroppedAt(g, g', b.eventType, b.key, b.action)
    ensures Extends(g', h, rest)
  {
    forall t, k ensures Actions(g', t, k) == Actions(h, t, k) + ActionsAt(rest, t, k) {
      RemoveStepAt(h, g, g', b, rest, t, k);
    }
  }

  lemma NoneBoundSnoc(h: Table, aliases: map<string, Path>, init: seq<Change>, c: Change, path: Ref)
    requires NoneBound(h, Bindings(aliases, init + [c], path))
    ensures NoneBound(h, Bindings(aliases, init, path)) && !BoundIn(h, BindingOf(aliases, c, path))
  {
    BindingsSnoc(aliases, init, c, path);
    var all := Bindings(aliases, init + [c], path);
    assert all[|init|] == BindingOf(aliases, c, path);
    assert forall i :: 0 <= i < |init| ==> all[i] == Bindings(aliases, init, path)[i];
  }

  /** Disabling 'add' changes in declaration order removes their actions one
      by one from a table that holds them after the actions of `h`. */
  lemma {:induction false} DisableRemoves(h: Table, g: Table, aliases: map<string, Path>, cs: seq<Change>, rest: seq<Bind>, path: Ref)
    requires WellFormed(g) && AllAdds(cs) && NoneBound(h, Bindings(aliases, cs, path))
    requires Extends(g, h, Bindings(aliases, cs, path) + rest)
    ensures RunChanges(g, aliases, cs, path, false).outcome == Pass
    ensures WellFormed(RunChanges(g, aliases, cs, path, false).table)
    ensures Extends(RunChanges(g, aliases, cs, path, false).table, h, rest)
    decreases |cs|
  {
    if cs == [] {
      assert Bindings(aliases, cs, path) + rest == rest;
      return;
    }
    var n := |cs| - 1;
    var b := BindingOf(aliases, cs[n], path);
    DisablePending(h, aliases, cs, rest, path);
    DisableRemoves(h, g, aliases, cs[..n], [b] + rest, path);
    DisableLast(h, g, aliases, cs, rest, path);
  }

  /** Splitting the last change off: its binding becomes the first pending
      one after those of the others. */
  lemma DisablePending(h: Table, aliases: map<string, Path>, cs: seq<Change>, rest: seq<Bind>, path: Ref)
    requires |cs| > 0 && AllAdds(cs) && NoneBound(h, Bindings(aliases, cs, path))
    ensures AllAdds(cs[..|cs| - 1]) && NoneBound(h, Bindings(aliases, cs[..|cs| - 1], path))
    ensures !BoundIn(h, BindingOf(aliases, cs[|cs| - 1], path))
    ensures Bindings(aliases, cs[..|cs| - 1], path) + ([BindingOf(aliases, cs[|cs| - 1], path)] + rest)
      == Bindings(aliases, cs, path) + rest
  {
    var n := |cs| - 1;
    var init := cs[..n];
    assert cs == init + [cs[n]];
    BindingsSnoc(aliases, init, cs[n], path);
    NoneBoundSnoc(h, aliases, init, cs[n], path);
  }

  /** The last step of `DisableRemoves`: the last change's binding is the
      first pending one, and removing it leaves the rest pending. */
  lemma DisableLast(h: Table, g: Table, aliases: map<string, Path>, cs: seq<Change>, rest: seq<Bind>, path: Ref)
    requires |cs| > 0 && cs[|cs| - 1].op != "remove"
    requires !BoundIn(h, BindingOf(aliases, cs[|cs| - 1], path))
    requires RunChanges(g, aliases, cs[..|cs| - 1], path, false).outcome == Pass
    requires WellFormed(RunChanges(g, aliases, cs[..|cs| - 1], path, false).table)
    requires Extends(RunChanges(g, aliases, cs[..|cs| - 1], path, false).table, h,
      [BindingOf(aliases, cs[|cs| - 1], path)] + rest)
    ensures RunChanges(g, aliases, cs, path, false).outcome == Pass
    ensures WellFormed(RunChanges(g, aliases, cs, path, false).table)
    ensures Extends(RunChanges(g, aliases, cs, path, false).table, h, rest)
  {
    var n := |cs| - 1;
    var b := BindingOf(aliases, cs[n], path);
    var prev := RunChanges(g, aliases, cs[..n], path, false);
    var f := FillPath(cs[n], path);
    assert Toggle(f, false) == RemoveHandler(b.eventType, f.path, b.action);
    assert cs[..n + 1] == cs;
    RunChangesStep(g, aliases, cs, path, false, n);
    RemovedSpec(prev.table, b.eventType, b.key, b.action);
    RemoveStep(h, prev.table, Removed(prev.table, b.eventType, b.key, b.action), b, rest);
  }

  /** For a state whose event changes are all 'add' and whose activation
      succeeded, disabling it (over the changes as activation left them)
      gives back the handler table it started from. */
  lemma {:induction false} ActivateThenDisableRestores(h: Table, aliases: map<string, Path>, cs: seq<Change>, path: Ref)
    requires WellFormed(h) && AllAdds(cs)
    requires RunChanges(h, aliases, cs, path, true).outcome.Pass?
    ensures RunChanges(RunChanges(h, aliases, cs, path, true).table, aliases, FillPaths(cs, path, |cs|), path, false)
      == Progress(h, |cs|, Pass)
  {
    var g := RunChanges(h, aliases, cs, path, true).table;
    var bs := Bindings(aliases, cs, path);
    ActivationOfAdds(h, aliases, cs, path);
    assert bs + [] == bs;
    DisableRemoves(h, g, aliases, cs, [], path);
    var filled := FillPaths(cs, path, |cs|);
    forall i | 0 <= i < |cs| ensures FillPath(filled[i], path) == FillPath(cs[i], path) { }
    RunChangesAfterFill(g, aliases, filled, cs, path, false);
    var p := RunChanges(g, aliases, cs, path, false);
    forall t, k ensures Actions(p.table, t, k) == Actions(h, t, k) {
      assert Actions(p.table, t, k) == Actions(h, t, k) + ActionsAt([], t, k);
    }
    ActionsDetermine(p.table, h);
  }

  class State {
    const name: string
    const teflon: Delegator
    var isActive: bool
    /** `null` for a master state, the instance path for a clone. The
        source assigns it once, right after constructing a clone. */
    const path: Ref
    var events: Option<seq<Change>>
    var attributes: Option<seq<Change>>

    constructor (name: string, spec: StateSpec, teflon: Delegator)
      ensures this.name == name && this.teflon == teflon
      ensures !isActive && path == Unset
      ensures events == spec.events && attributes == spec.attributes
    {
      this.name := name;
      this.teflon := teflon;
      isActive := false;
      path := Unset;
      events := spec.events;
      attributes := spec.attributes;
    }

    /** The state `clone` builds: a new state whose path is then set. */
    constructor Instance(name: string, spec: StateSpec, teflon: Delegator, path: Ref)
      ensures this.name == name && this.teflon == teflon
      ensures !isActive && this.path == path
      ensures events == spec.events && attributes == spec.attributes
    {
      this.name := name;
      this.teflon := teflon;
      isActive := false;
      this.path := path;
      events := spec.events;
      attributes := spec.attributes;
    }

    /** The event loop shared by `activate` and `disable`. */
    method RunEvents(activating: bool) returns (r: Outcome)
      requires teflon.Valid()
      modifies this`events, teflon, teflon.dp`listening
      ensures teflon.Valid()
      ensures var p := RunChanges(old(teflon.handlers), teflon.dp.aliases, Listed(old(events)), path, activating);
        teflon.handlers == p.table && r == p.outcome && events == FillSome(old(events), path, p.done)
    {
      r := Pass;
      if events.None? {
        return;
      }
      var cs0 := events.value;
      ghost var h0 := teflon.handlers;
      var i := 0;
      assert FillPaths(cs0, path, 0) == cs0;
      while i < |cs0|
        invariant 0 <= i <= |cs0|
        invariant events == Some(FillPaths(cs0, path, i))
        invariant teflon.Valid() && r == Pass
        invariant Reached(h0, teflon.dp.aliases, cs0, path, activating, i, teflon.handlers)
        decreases |cs0| - i
      {
        r := RunEvent(activating, cs0, h0, i);
        if r.Fail? {
          return;
        }
        i := i + 1;
      }
      assert cs0[..i] == cs0;
    }

    /** One turn of the event loop: apply the path to change `i` and run
        its command. */
    method RunEvent(activating: bool, cs0: seq<Change>, ghost h0: Table, i: nat) returns (r: Outcome)
      requires teflon.Valid() && i < |cs0| && events == Some(FillPaths(cs0, path, i))
      requires Reached(h0, teflon.dp.aliases, cs0, path, activating, i, teflon.handlers)
      modifies this`events, teflon, teflon.dp`listening
      ensures teflon.Valid() && events == Some(FillPaths(cs0, path, i + 1))
      ensures r.Pass? ==> Reached(h0, teflon.dp.aliases, cs0, path, activating, i + 1, teflon.handlers)
      ensures r.Fail? ==> RunChanges(h0, teflon.dp.aliases, cs0, path, activating) == Progress(teflon.handlers, i + 1, r)
    {
      var c := FillPath(cs0[i], path);
      FillPathsStep(cs0, path, i);
      events := Some(events.value[i := c]);
      ReachedStep(h0, teflon.dp.aliases, cs0, path, activating, i, teflon.handlers);
      r := Perform(teflon, Toggle(c, activating));
    }

    /** `_applyPathToAttributes` */
    method ApplyPathToAttributes()
      modifies this`attributes
      ensures attributes == FillSome(old(attributes), path, |Listed(old(attributes))|)
    {
      if attributes.None? || !Truthy(path) {
        return;
      }
      var attrs := attributes.value;
      ghost var a0 := attrs;
      for i := 0 to |attrs|
        invariant attrs == FillPaths(a0, path, i)
      {
        if !Truthy(attrs[i].path) {
          attrs := attrs[i := attrs[i].(path := path)];
        }
      }
      attributes := Some(attrs);
    }

    /** `activate()`: the event changes in declaration order, then the
        attribute bundle, then the flag. A duplicate action aborts it with
        the flag and the attributes untouched. */
    method Activate() returns (r: Outcome)
      requires teflon.Valid()
      modifies this`events, this`attributes, this`isActive, teflon, teflon.dp`listening, teflon.dp`attributeLog
      ensures teflon.Valid()
      ensures var p := RunChanges(old(teflon.handlers), teflon.dp.aliases, Listed(old(events)), path, true);
        teflon.handlers == p.table && r == p.outcome && events == FillSome(old(events), path, p.done)
      ensures r.Pass? ==>
        isActive &&
        attributes == FillSome(old(attributes), path, |Listed(old(attributes))|) &&
        teflon.dp.attributeLog == old(teflon.dp.attributeLog) + AttributeCalls(attributes, true)
      ensures r.Fail? ==>
        isActive == old(isActive) && attributes == old(attributes) &&
        teflon.dp.attributeLog == old(teflon.dp.attributeLog)
    {
      r := RunEvents(true);
      if r.Fail? {
        return;
      }
      ApplyPathToAttributes();
      if attributes.Some? {
        teflon.dp.ApplyAttributes(attributes.value);
      }
      isActive := true;
    }

    /** `disable()`: the same changes in the same order with the op
        inverted, then the attributes reverted, then the flag cleared. */
    method Disable() returns (r: Outcome)
      requires teflon.Valid()
      modifies this`events, this`attributes, this`isActive, teflon, teflon.dp`listening, teflon.dp`attributeLog
      ensures teflon.Valid()
      ensures var p := RunChanges(old(teflon.handlers), teflon.dp.aliases, Listed(old(events)), path, false);
        teflon.handlers == p.table && r == p.outcome && events == FillSome(old(events), path, p.done)
      ensures r.Pass? ==>
        !isActive &&
        attributes == FillSome(old(attributes), path, |Listed(old(attributes))|) &&
        teflon.dp.attributeLog == old(teflon.dp.attributeLog) + AttributeCalls(attributes, false)
      ensures r.Fail? ==>
        isActive == old(isActive) && attributes == old(attributes) &&
        teflon.dp.attributeLog == old(teflon.dp.attributeLog)
    {
      r := RunEvents(false);
      if r.Fail? {
        return;
      }
      ApplyPathToAttributes();
      if attributes.Some? {
        teflon.dp.RevertAttributes(attributes.value);
      }
      isActive := false;
    }

    /** `clone(path)`: only a master can be cloned, and only onto a path.
        The clone holds its own copies of the change lists. */
    method Clone(p: Ref) returns (r: Result<State>)
      ensures Truthy(path) ==> r == Err(CloneFromMaster)
      ensures !Truthy(path) && !Truthy(p) ==> r == Err(CloneNeedsPath)
      ensures !Truthy(path) && Truthy(p) ==>
        r.Ok? && fresh(r.value) &&
        r.value.name == name && r.value.teflon == teflon && !r.value.isActive &&
        r.value.path == p && r.value.events == events && r.value.attributes == attributes
    {
      if Truthy(path) {
        return Err(CloneFromMaster);
      }
      if !Truthy(p) {
        return Err(CloneNeedsPath);
      }
      var instance := new State.Instance(name, StateSpec(events, attributes), teflon, p);
      r := Ok(instance);
    }
  }
}
