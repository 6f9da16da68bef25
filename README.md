# Teflon core in Dafny

Teflon binds named slots of an existing node tree to data and to UI state.
This project models its four pieces of sequential logic and proves what
they promise:

- **Event delegator** (`Events`). It keeps a table from event type to
  dealiased path to an ordered action list. It installs one root listener
  per event type in the table. Dispatch walks the source node's path from
  the longest prefix to the shortest; the first prefix with a binding wins,
  and a generated row can stand in for its template row through its owner
  tag.
- **Layered states** (`Commands`, `StateModel`, `Registry`). A state is a
  bundle of event changes and attribute changes that can be activated and
  disabled. The registry promotes a master state into a per-path collection
  of clones the first time the master is activated with a path.
- **Row reconciler** (`Repeat`). It makes the number of owner-tagged rows
  under an anchor equal to the number of data items, then writes item `i`
  into the row at `base ++ [start + i]`.
- **Data-map registry and fill dispatcher** (`Teflon`). It registers named
  data maps, classifies each spec of a map, and then writes, repeats or
  throws.

The tree pointer the library drives is a collaborator, not part of the
library. `Dom.Pointer` keeps only the state the library reads and writes
through it:

- the alias table;
- the cache of resolved paths;
- the child lists of container nodes;
- the multiset of installed root listeners;
- the log of attribute calls;
- the log of data writes;
- the set of changed paths.

A path such as `:0:1:2` is the sequence `[0, 1, 2]`. A path or alias
argument is a `Ref`: an alias name, a path, or `Unset` (undefined or null).
`Base.Truthy` is JavaScript truthiness of such an argument. Every thrown
error is a value of `Base.Error`. An operation that throws returns
`Fail(error)` or `Err(error)`.

The stateful parts are classes: `Events.Delegator`, `StateModel.State`,
`Registry.States`, `Teflon.Teflon` and `Dom.Pointer`. Each method is proved
against a function of the prior state:

- `Events.Added`, `Events.Removed` and `Events.RemovedTypes` for the table;
- `StateModel.RunChanges` for the event loop of a state;
- `Repeat.AfterCreateRows` and `Repeat.AfterRepeat` for the reconciler;
- `Teflon.FillRun` for `_fill`.

Lemmas state what those functions guarantee.

## Model

| member | source | states |
|---|---|---|
| Events.AddedSpec | src/events.js:28-45 | Adding fails exactly when the action is already bound to (type, path), with the duplicate-action error. Otherwise it appends the action to that list, leaves every other (type, path) list unchanged, adds the type to the keys, and keeps every list non-empty and free of duplicates. |
| Events.Delegator.AddEventHandler | src/events.js:28-45 | The table becomes `Added` of the old table at the dealiased path. A duplicate throws and leaves the table and the listeners unchanged. The installed listeners stay equal to the table's types, so only a type's first registration installs one. |
| Events.AliasAndPathShareEntry | src/events.js:29 | Registering through an alias and through the path it stands for reaches the same table entry. |
| Events.Without | src/events.js:61-63 | Splicing out an action: the list is unchanged when the action is absent and one shorter when it is present. It introduces no new action, and on a duplicate-free list it removes exactly that action and keeps every other. |
| Events.RemovedSpec | src/events.js:56-74 | Removing takes exactly that action out of its list and leaves every other (type, path) list as it was. The table stays well formed, so an emptied path entry and an emptied type disappear. Removing an absent binding changes nothing. |
| Events.Delegator.RemoveEventHandler | src/events.js:56-74 | The table becomes `Removed` of the old table at the dealiased path. The listeners stay equal to the table's types, so dropping a type uninstalls its listener. |
| Events.RemoveUndoesAdd | src/events.js:28-74 | Removing a binding that was just added, and was not there before, gives back exactly the original table. |
| Events.RemovedTypes | src/events.js:85-93 | An empty type list removes every type. Otherwise exactly the listed types are removed, every other type keeps its entry, and the table stays well formed. |
| Events.Delegator.RemoveEventHandlers | src/events.js:85-93 | The loop over the table's keys leaves exactly `RemovedTypes` of the old table, and the listeners stay equal to the remaining types. |
| Events.Delegator.constructor | src/index.js:12 | A new delegator starts with an empty table and no listeners. |
| Events.Emit | src/events.js:126-128 | Emits one emission per action, in list order, each with the given node. |
| Events.DispatchIsFirstMatch | src/events.js:110-133 | Dispatch emits nothing when no non-empty prefix of the source path hits. Otherwise it emits exactly the actions of the longest prefix that hits, in order, with that prefix's node. |
| Events.RowInheritsOwnerBinding | src/events.js:117-128 | A row without its own binding whose owner tag names a bound template row fires the template row's actions, emitted with the row's own node. |
| Events.Delegator.HandleEvent | src/events.js:103-134 | A type with no handlers emits nothing. Otherwise the prefix walk emits exactly what `Dispatch` specifies. |
| Commands.ActivateEvent | src/state/activateEvent.js:1-9 | The activate thunk targets the change's name as event type, its path and its val as action. It removes the handler exactly when the op is 'remove' and adds it otherwise. |
| Commands.DisableEvent | src/state/disableEvent.js:1-9 | The disable thunk is the inverse of the activate thunk: same event type (the change's name), same path, same action (its val), and it adds exactly when the op is 'remove'. |
| Commands.DisableUndoesActivate | src/state/disableEvent.js:3-6 | For an 'add' change whose binding is absent, running the activate thunk and then the disable thunk gives back the table. |
| Commands.Perform | src/state/activateEvent.js:2-8 | Running a thunk against the delegator: an add that fails throws and leaves the table unchanged; otherwise the table becomes the command's result. |
| StateModel.FillPaths | src/state.js:72-76 | Applying the instance path keeps each change's op, name and val, and keeps a path the change already has. Every change reached that has no path of its own gets exactly the instance path. A master's changes, and changes not reached, stay as they were. |
| StateModel.State.ApplyPathToAttributes | src/state.js:78-86 | Every attribute change without a path gets the instance path; the others are unchanged. |
| StateModel.RunChanges | src/state.js:55-61 | The event loop stops at the first change that throws, which can only be a duplicate action; when it runs to the end it has reached every change. |
| StateModel.ReachedStep | src/state.js:57-60 | One more change of the loop: on success the loop has reached the next change; on failure the whole run ends there. |
| StateModel.FailureStops | src/state.js:57-60 | Once a prefix of the changes has thrown, the later changes are never run. |
| StateModel.RunChangesAfterFill | src/state.js:72-76 | A change list whose paths were already applied runs exactly as the original does. |
| StateModel.State.RunEvents | src/state.js:56-61 | The handler table and the changes after the loop are those `RunChanges` specifies: each change reached has the path applied and its command run, in declaration order. |
| StateModel.State.RunEvent | src/state.js:57-60 | One turn of the loop: apply the path to one change, then run its command. |
| StateModel.State.Activate | src/state.js:55-70 | The event changes run in declaration order with the activation op. Then the attributes get the path and are set, and the state becomes active. A duplicate action aborts before the attributes and the flag. |
| StateModel.State.Disable | src/state.js:88-103 | The same changes run in the same order with the inverse op. Then the attributes are reverted and the state becomes inactive. A failure leaves the attributes and the flag unchanged. |
| StateModel.ActivationOfAdds | src/state.js:55-61 | Activating only 'add' changes succeeds exactly when none of their bindings is present and no two are equal. It then appends each action to its (type, path) list. |
| StateModel.ActivateThenDisableRestores | src/state.js:55-103 | For all-'add' changes whose activation succeeded, disabling over the changes as activation left them succeeds and gives back the original table. |
| StateModel.State.constructor | src/state.js:22-29 | A new state is inactive, has no path, and holds the given events and attributes. |
| StateModel.State.Instance | src/state.js:117-118 | The state `clone` builds: a new inactive state with the given name, lists and path. |
| StateModel.State.Clone | src/state.js:105-122 | Cloning an instance throws "clone from master", and cloning without a path throws "clone needs a path". Otherwise the result is a fresh inactive state with the same name and the given path, holding its own copies of the lists. |
| Registry.Drop | src/states.js:149 | Deleting a key from the Map's insertion order keeps exactly the other keys. |
| Registry.ShapeAdd | src/states.js:129-135 | Filing a new master under an unused name keeps the registry's shape. |
| Registry.ShapePromote | src/states.js:76-79 | Moving the master to the prototypes and leaving an empty per-path Map keeps the shape. |
| Registry.ShapeClone | src/states.js:80 | Filing a clone under a new path keeps the shape. |
| Registry.ShapeDropInstance | src/states.js:148-149 | Deleting one instance keeps the shape. |
| Registry.ShapeDropSingle | src/states.js:150-151 | Deleting an unpromoted master keeps the shape. |
| Registry.States.constructor | src/index.js:13-14 | A new registry has no states and no prototypes. |
| Registry.States.HasState | src/states.js:12-21 | Without a path, a state exists exactly when its name is registered. With a path, it exists exactly when the name has been promoted to a per-path Map that holds that path. |
| Registry.States.GetState | src/states.js:12-39 | The lookup succeeds exactly when the name is registered and, given a path, the name has been promoted and has that path. It returns the instance for a path and the entry itself without one. Otherwise it throws "does not exist". |
| Registry.States.InState | src/states.js:49-51 | Throws "does not exist" exactly when the target is missing. It is true exactly when the target is a state object that is active. |
| Registry.States.Promote | src/states.js:75-81 | Given a path the name lacks, the master moves to the prototypes the first time, and a fresh inactive clone is filed under the path. An unknown name throws "does not exist". A name that `_prototype` answers through Object.prototype (such as `toString`) is never promoted, and calling `clone` on the built-in throws. Without a path, for a path the name already has, or on a throw, nothing changes. No other name is touched. |
| Registry.States.MoveToPrototype | src/states.js:77-78 | The master is stored as the name's prototype, and the entry becomes an empty per-path Map. |
| Registry.States.FileClone | src/states.js:80 | A fresh inactive clone of the prototype, with the prototype's name and lists, is filed under the path, at the end of the insertion order. |
| Registry.States.ActivateState | src/states.js:74-88 | Errors: an unknown name throws "does not exist"; an active target throws "already activated" and changes nothing; a promoted name without a path has no `activate`; a name inherited from Object.prototype, given a new path, throws on `clone` and changes nothing. On success the target is active. No other state object changes its flag or its lists, and only the target's name changes its entry. |
| Registry.States.ActivateTarget | src/states.js:82-86 | The target must exist, be a state object and be inactive; it then ends active. For an inactive state object, everything its `activate()` leaves is stated (`Ran`): the table after its event changes (`RunChanges`), the outcome, its events with the path filled into the changes reached, and on success its attributes with the path filled in, their calls appended to the log and the flag raised; after a throw its attributes, flag and log are as before. In every other case neither the table nor the log changes. No other state object changes at all. |
| Registry.States.DisableState | src/states.js:98-104 | A missing target throws "does not exist", and an inactive target throws "already disabled". On success the target was active and is now inactive. For an active target, the handler table, the outcome, its events and attributes and the attribute log are those its `disable()` leaves (`Ran`); otherwise neither the table nor the log changes. No other state object changes at all. |
| Registry.States.DisableAll | src/states.js:106-117 | An unknown name throws, and an unpromoted name throws "only for instances"; neither touches the handler table or the attribute log. On success every instance of the name is inactive. No state outside the name's instances changes at all. |
| Registry.States.DisableIfActive | src/states.js:110-112 | One turn of the loop in insertion order: after it, every instance up to this one is inactive. An active instance leaves the handler table, the outcome, its own events and attributes and the attribute log as its `disable()` does (`Ran`); an inactive one passes and changes neither. No state object other than this instance changes at all. |
| Registry.States.ToggleState | src/states.js:53-64 | An active target is disabled and any other target is activated, so on success the flag is flipped. Without `clear`, an unknown name throws "does not exist". |
| Registry.States.AddState | src/states.js:129-135 | A new name gets a fresh inactive master with no path and the given lists, and no other entry changes. A registered name throws "already added" and changes nothing. |
| Registry.States.RemoveState | src/states.js:145-156 | A missing target throws "does not exist", and an inactive target throws "already disabled"; neither deletes anything. On success the target was active and is deleted: without a path the name goes; with a path only that instance goes, from the Map and from its insertion order. Every other name keeps its entry, and the prototypes do not change. For an active target, the handler table, the outcome, its events and attributes and the attribute log are those its `disable()` leaves (`Ran`); otherwise neither the table nor the log changes. No state object other than the target changes at all. |
| Registry.States.DropEntry | src/states.js:148-152 | Without a path the name is deleted. With a path the name's Map loses exactly that key, and its insertion order loses that path and keeps the rest in order. Every other name and the prototypes stay as they were. |
| Registry.States.SetStateMap | src/states.js:167-175 | On success the registered names are the earlier ones plus every name of the map, every entry registered before other than 'default' keeps its value, every new name other than 'default' holds a single master, and a 'default' state is active. No state object registered before, other than the 'default' target, changes at all. |
| Registry.States.AddStates | src/states.js:168-170 | On success the registered names are the earlier ones plus every name of the map, every entry registered before keeps its value, and every new name holds a single master. Otherwise it throws "already added" for the first entry whose name was registered before or repeats an earlier entry; every entry before it brought a new name and stays added, with the same guarantees. |
| Registry.RegisteredNext | src/states.js:169 | One turn of the `forEach`: filing a single master under the next entry's free name extends the run by that name, and every entry registered before stays as it was. |
| Registry.UnclashedNext | src/states.js:168-170 | An entry whose name is neither registered nor among the earlier entries extends the run of entries with new names. |
| Repeat.TaggedAppend | src/data/repeat.js:49 | The tagged rows of two concatenated parts are the tagged rows of each part, in order. |
| Repeat.CountRemoveAt | src/data/repeat.js:61 | Removing a child lowers the tagged count by one exactly when that child is tagged. |
| Repeat.IndexOf | src/data/repeat.js:66 | The position of the bound node among the container's children. |
| Repeat.NthTagged | src/data/repeat.js:49 | The position of the tagged row number `j` is a tagged row. |
| Repeat.TagFirst | src/data/repeat.js:21-22 | The first row gets index 0 and the anchor as owner; every other row is unchanged. |
| Repeat.Anchor | src/data/repeat.js:6-24 | A bound anchor node is reused. Otherwise a clone is inserted after child `start - 1`, or appended to an empty container, and bound. Either way the row gets owner and index 0. It fails exactly when an unbound anchor has no child `start - 1`. |
| Repeat.AnchorReuses | src/data/repeat.js:9-10 | A bound anchor is reused in place: no row is added, no other row changes, and the bindings stay. |
| Repeat.AnchorInserts | src/data/repeat.js:11-19 | An unbound anchor gets exactly one fresh clone, at position `start` or as the only child; removing it gives back the original children. |
| Repeat.GrownShape | src/data/repeat.js:52-58 | Growing inserts a chain of clones directly after the first row, tagged `oldCount .. rowCount - 1` in document order. Nothing else moves, and the tagged count rises by the number of clones. |
| Repeat.KeepTagged | src/data/repeat.js:59-62 | Shrinking keeps exactly the first `rowCount` tagged rows, in order. |
| Repeat.KeepUntagged | src/data/repeat.js:59-62 | Shrinking never removes an untagged row and keeps their order. |
| Repeat.KeepStep | src/data/repeat.js:60-61 | Removing the last kept tagged row, at the position taken before the loop, keeps one tagged row fewer. |
| Repeat.SingleItemLosesRow | src/data/repeat.js:63-68 | As written, a one-item array over an untagged template row bound to the anchor leaves no tagged row; the intended reconciler leaves one. |
| Repeat.EmptyFillClearsTemplate | src/data/repeat.js:63-68 | An empty array over a container holding only the untagged template row bound to the anchor empties the container. |
| Repeat.ReconcileFails | src/data/repeat.js:45-47 | Reconciling fails only when rows are wanted and the unbound anchor has no sibling to follow, with that error. |
| Repeat.ReconcileCount | src/data/repeat.js:39-68 | After reconciling, exactly `rowCount` rows carry the owner tag, and no binding other than the anchor's changes. (Corrected equal-count branch, see "## Findings".) |
| Repeat.ReparseAttached | src/data/repeat.js:70 | Re-parsing after the children changed keeps every cached path bound to a child of its container. |
| Repeat.CreateRowsEffect | src/data/repeat.js:39-74 | The container ends with exactly `rowCount` tagged rows. Only that container changes, it is registered as changed, and the cache stays consistent. It fails only for a missing container or a missing sibling. (Corrected equal-count branch, see "## Findings".) |
| Repeat.InsertionRow | src/data/repeat.js:6-24 | The pointer's children, bindings and node counter become those `Anchor` specifies. A failure leaves the pointer unchanged. |
| Repeat.CreateRows | src/data/repeat.js:39-74 | The outcome and the new pointer state are those `AfterCreateRows` specifies, and the cache stays consistent. (Corrected equal-count branch, see "## Findings".) |
| Repeat.CreateRowsIn | src/data/repeat.js:42-73 | The same for an existing container. (Corrected equal-count branch, see "## Findings".) |
| Repeat.Settle | src/data/repeat.js:52-73 | The grow, shrink or equal-count step, then re-parse and change registration, as `Settled` specifies. (Corrected equal-count branch, see "## Findings".) |
| Repeat.SettleRows | src/data/repeat.js:49-68 | The container's rows after the grow, shrink or equal-count step are those of `Settled`. (Corrected equal-count branch, see "## Findings".) |
| Repeat.GrowRows | src/data/repeat.js:52-58 | The loop inserts exactly the `Grown` chain and takes one fresh node per clone. |
| Repeat.ShrinkRows | src/data/repeat.js:59-62 | The countdown loop over the positions taken once leaves exactly `Keep` of the rows. |
| Repeat.KeyWrites | src/data/repeat.js:114-116 | One write per key of the mapping. |
| Repeat.RowWrites | src/data/repeat.js:109-118 | One write per item and key. |
| Repeat.RowWritesAt | src/data/repeat.js:109-118 | Write `i * keys + k` sets key `k` to the value picked from item `i`, in the row at `base ++ [start + i]`: rows come in data order and keys in mapping order. |
| Repeat.WriteKeys | src/data/repeat.js:114-116 | The inner loop appends exactly the `KeyWrites` of the item. |
| Repeat.FillRows | src/data/repeat.js:109-118 | The nested loop appends exactly the `RowWrites` of the items. |
| Repeat.RepeatEffect | src/data/repeat.js:96-107 | Non-array data throws before anything changes. On success the anchor's container holds one tagged row per item, and the rows are filled in order after the earlier writes. Only that container changed, and it is registered as changed. (Corrected equal-count branch, see "## Findings".) |
| Repeat.Repeat | src/data/repeat.js:96-107 | The outcome and the new pointer state are those `AfterRepeat` specifies. (Corrected equal-count branch, see "## Findings".) |
| Teflon.SpecStep | src/index.js:63-96 | An unsupported spec throws. So do non-array picked items, and so does an unknown items type over an array. A data path makes exactly one write, relative to the parent path. A sub-key spec appends exactly the writes `KeyWrites` gives for its keys. String items over an array make one write of the whole array. A `{path}` spec without items changes nothing. Object items over an array are repeated as `AfterRepeat` specifies. Only a repeating spec touches the rows, and every other spec only appends writes. |
| Teflon.FillRun | src/index.js:62-97 | `_fill` keeps the cache consistent and the aliases unchanged, and it only ever appends writes. |
| Teflon.FillStops | src/index.js:63 | Once a key has thrown, the later keys are never handled. |
| Teflon.FillKeepsEarlierWrites | src/index.js:63 | The writes made by the keys before a throw stay made. |
| Teflon.FlatFill | src/index.js:90-92 | A map of data paths never throws and makes exactly one write per key, in key order, relative to the parent path; nothing else changes. |
| Teflon.StepRepeats | src/index.js:77-78 | A spec with object items does what `repeat` does with the picked array. |
| Teflon.Teflon.constructor | src/index.js:10-20 | A new library object has no handlers, no states and no data maps. |
| Teflon.Teflon.Link | src/index.js:35-41 | Only the 'data' map type exists, and any other throws. A second link under a name replaces the first. |
| Teflon.Teflon.Fill | src/index.js:52-60 | An unregistered name throws "no such data map" and changes nothing. Otherwise the pointer state and the outcome are those of `FillRun` over the named map. |
| Teflon.Teflon.FillMap | src/index.js:62-97 | The key loop stops at the first key that throws, as `FillRun` specifies. (Corrected equal-count branch, see "## Findings".) |
| Teflon.Teflon.FillKey | src/index.js:64-95 | One key is handled as `SpecStep` specifies. (Corrected equal-count branch, see "## Findings".) |
| Teflon.Teflon.FillPicked | src/index.js:66-82 | A `{path, items}` spec is handled as `SpecStep` specifies. (Corrected equal-count branch, see "## Findings".) |
| Teflon.Teflon.SetTemplateMap | src/index.js:182-190 | The cached paths are dropped, and every key becomes an alias of its path, so an alias resolves as its path does. |
| Teflon.Teflon.BindAliases | src/index.js:186-188 | Every key of the template map is aliased to its path. |
| Teflon.Teflon.SetDataMap | src/index.js:199-204 | Every data map is linked under its name. |
| Teflon.Teflon.Load | src/index.js:169-174 | Installs the template aliases, then the data maps, then the states. On success the registered names are the earlier ones plus every state's name, every entry registered before other than 'default' keeps its value, every new name other than 'default' holds a single master, and a 'default' state is active. No state object registered before, other than the 'default' target, changes at all. |

## Left out

- The tree pointer (DomPointer) is a foreign library. Its behaviour enters the model only as the state listed above. `parse()` is modelled as dropping the cached paths below the container and binding its children afresh, and `reset()` only as clearing the cached paths.
- `render`, `setElement`, `getElement`, `setHTML` and `create` are thin wrappers over the pointer.
- HTML, text nodes, `innerHTML` and the native event semantics are not modelled: `stopPropagation`, the descendant search of `querySelectorAll` (tagged rows are taken to be direct children of the container), and `cloneNode` (a clone is a fresh node identity).
- The dotted-path extractor (`Dot.pick`) is the function parameter `pick`.
- `emit` is an output sequence of (action, node) pairs. Listener callbacks are out of scope. The node at a path and its owner tag are the function parameters `nodeAt` and `ownerAt`.
- `util.mixin` is prototype plumbing. `insertAfter` is sequence insertion. `copyObj` is a value copy.
- The constructor's `input` field is never read by the core.
- A data-map spec arrives already classified (the `Teflon.Spec` datatype). JavaScript's `constructor.name` and `typeof` tests are not modelled; their outcome is the `Spec` case.
- A dealiased anchor that is not a path, or is the empty path, fails with `NotFound`. The source would read an undefined container there.
- `Repeat.ReconcileCount`: follows the equal-count branch of `createRows` as corrected under "## Findings", not as written (`Repeat.SettledAsWritten`, `Repeat.ReconcileAsWritten`).
- `Repeat.CreateRowsEffect`: follows the equal-count branch of `createRows` as corrected under "## Findings", not as written (`Repeat.SettledAsWritten`, `Repeat.ReconcileAsWritten`).
- `Repeat.CreateRows`: follows the equal-count branch of `createRows` as corrected under "## Findings", not as written (`Repeat.SettledAsWritten`, `Repeat.ReconcileAsWritten`).
- `Repeat.CreateRowsIn`: follows the equal-count branch of `createRows` as corrected under "## Findings", not as written (`Repeat.SettledAsWritten`, `Repeat.ReconcileAsWritten`).
- `Repeat.Settle`: follows the equal-count branch of `createRows` as corrected under "## Findings", not as written (`Repeat.SettledAsWritten`, `Repeat.ReconcileAsWritten`).
- `Repeat.SettleRows`: follows the equal-count branch of `createRows` as corrected under "## Findings", not as written (`Repeat.SettledAsWritten`, `Repeat.ReconcileAsWritten`).
- `Repeat.RepeatEffect`: follows the equal-count branch of `createRows` as corrected under "## Findings", not as written (`Repeat.SettledAsWritten`, `Repeat.ReconcileAsWritten`).
- `Repeat.Repeat`: follows the equal-count branch of `createRows` as corrected under "## Findings", not as written (`Repeat.SettledAsWritten`, `Repeat.ReconcileAsWritten`).
- `Teflon.SpecStep`: follows the equal-count branch of `createRows` as corrected under "## Findings", not as written (`Repeat.SettledAsWritten`, `Repeat.ReconcileAsWritten`).
- `Teflon.FillRun`: follows the equal-count branch of `createRows` as corrected under "## Findings", not as written (`Repeat.SettledAsWritten`, `Repeat.ReconcileAsWritten`).
- `Teflon.Teflon.Fill`: follows the equal-count branch of `createRows` as corrected under "## Findings", not as written (`Repeat.SettledAsWritten`, `Repeat.ReconcileAsWritten`).
- `Teflon.Teflon.FillMap`: follows the equal-count branch of `createRows` as corrected under "## Findings", not as written (`Repeat.SettledAsWritten`, `Repeat.ReconcileAsWritten`).
- `Teflon.Teflon.FillKey`: follows the equal-count branch of `createRows` as corrected under "## Findings", not as written (`Repeat.SettledAsWritten`, `Repeat.ReconcileAsWritten`).
- `Teflon.Teflon.FillPicked`: follows the equal-count branch of `createRows` as corrected under "## Findings", not as written (`Repeat.SettledAsWritten`, `Repeat.ReconcileAsWritten`).
- `Teflon.Teflon.Load`: does not state the error `setStateMap` throws, only what holds on success, and does not state the new masters' flags and lists (see `Registry.States.AddStates`).
- `Registry.States.SetStateMap`: does not state which error a failed `addState` or activation throws, only what holds on success. The 'default' entry is left out of the frame clauses because its activation runs through `activateState`, whose effect on the entry is stated there.
- `Registry.States.AddStates`: does not carry through the loop that each new master is fresh, inactive, without a path and holds its spec's events and attributes; `Registry.States.AddState` states this for one name. The loop states the map: names, entries kept, and a single master per new name.
- `Registry.States.ActivateState`: does not name the error of a duplicate action raised by the target's `activate`, and does not state the table, the log or the target's lists; it states that on success the target is active and that no other state object changes. `Registry.States.ActivateTarget` states the rest once the target exists.
- `Registry.States.DisableAll`: does not name the error when disabling an instance throws part-way; the instances before it stay disabled. On a promoted name it does not state the handler table or the attribute log after the loop; `Registry.States.DisableIfActive` states them for each step.
- `Repeat.AfterCreateRows`: child lists are keyed by path, and only the reconciled container's list changes. Lists below it stay under their old paths when a reconcile inserts or removes rows, and a cloned row does not get the template's child lists. A repeat whose container lies inside a generated or shifted row is outside the model.
- `Repeat.CreateRowsEffect`: keeps every other container's child list as it was, which is right for containers outside the reconciled one. Lists below it keyed by a shifted row's path are not re-keyed (see `Repeat.AfterCreateRows`).
- `Registry.States.ToggleState`: states the flag after success and the "does not exist" error without `clear`. The intermediate activation and `disableAll` of the `clear` path are not stated separately.
- `StateModel.State.Activate` and `StateModel.State.Disable`: a change whose path was applied before a throw keeps that path, as in the source. The table's contents after a throw are stated only through `RunChanges`.
- `Events.Delegator.HandleEvent`: returns the emissions instead of calling the emitter. A node without a dataset, which the source tests for, is an `ownerAt` of `None`.

## Findings

| source | as written | input that shows it | evidently intended | confidence | as-written member | corrected member |
|---|---|---|---|---|---|---|
| src/data/repeat.js:63-68 | With equal counts, the node bound to the anchor path is removed even when rows are wanted. That node was just reused or inserted as the first row. | `repeat` of a one-item array into a container whose anchor path is bound to the untagged template row: after tagging it the count is 1, so the branch removes the only row. | Remove the bound node only when no rows are wanted (`rowCount == 0`), the case its comment "first has no owner info" describes. | not executed | Repeat.ReconcileAsWritten / Repeat.SingleItemLosesRow | Repeat.Reconcile / Repeat.ReconcileCount |
