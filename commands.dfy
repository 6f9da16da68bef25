/** The op-inversion rule of src/state/activateEvent.js and
    src/state/disableEvent.js. Each file builds a thunk from a change
    descriptor; building it does nothing, running it adds or removes one
    binding. The thunk is modelled as the command it runs. */
module Commands {
  import opened Base
  import opened Dom
  import opened Events

  datatype Command =
    | AddHandler(eventType: EventType, key: Ref, action: Action)
    | RemoveHandler(eventType: EventType, key: Ref, action: Action)

  function Inverse(cmd: Command): Command
  {
    match cmd
    case AddHandler(t, k, a) => RemoveHandler(t, k, a)
    case RemoveHandler(t, k, a) => AddHandler(t, k, a)
  }

  /** `activateEvent(teflon, change)`: op 'remove' removes the binding, any
      other op adds it; the change's name is the event type and its val the
      action. */
  function ActivateEvent(c: Change): (cmd: Command)
    ensures cmd.eventType == c.name && cmd.key == c.path && cmd.action == c.val
    ensures cmd.RemoveHandler? <==> c.op == "remove"
  {
    if c.op == "remove" then RemoveHandler(c.name, c.path, c.val)
    else AddHandler(c.name, c.path, c.val)
  }

  /** `disableEvent(teflon, change)`: the same binding with the op inverted. */
  function DisableEvent(c: Change): (cmd: Command)
    ensures cmd == Inverse(ActivateEvent(c))
    ensures cmd.eventType == c.name && cmd.key == c.path && cmd.action == c.val
    ensures cmd.AddHandler? <==> c.op == "remove"
  {
    if c.op == "remove" then AddHandler(c.name, c.path, c.val)
    else RemoveHandler(c.name, c.path, c.val)
  }

  /** What running a command does to the handler table: the delegator
      dealiases the path, then adds (which may fail on a duplicate) or
      removes (which never fails). */
  function Run(h: Table, aliases: map<string, Path>, cmd: Command): Result<Table>
  {
    match cmd
    case AddHandler(t, k, a) => Added(h, t, Dealias(aliases, k), a)
    case RemoveHandler(t, k, a) => Ok(Removed(h, t, Dealias(aliases, k), a))
  }

  /** For an 'add' change whose binding is not already there, running the
      activation thunk and then the disable thunk gives back the table. */
  lemma {:induction false} DisableUndoesActivate(h: Table, aliases: map<string, Path>, c: Change)
    requires WellFormed(h)
    requires c.op != "remove"
    requires !Bound(h, c.name, Dealias(aliases, c.path), c.val)
    ensures Run(h, aliases, ActivateEvent(c)).Ok?
    ensures Run(Run(h, aliases, ActivateEvent(c)).value, aliases, DisableEvent(c)) == Ok(h)
  {
    RemoveUndoesAdd(h, c.name, Dealias(aliases, c.path), c.val);
  }

  /** Running a thunk against the delegator. */
  method Perform(d: Delegator, cmd: Command) returns (r: Outcome)
    requires d.Valid()
    modifies d, d.dp`listening
    ensures d.Valid()
    ensures Run(old(d.handlers), d.dp.aliases, cmd).Ok? ==>
      r == Pass && d.handlers == Run(old(d.handlers), d.dp.aliases, cmd).value
    ensures Run(old(d.handlers), d.dp.aliases, cmd).Err? ==>
      r == Fail(Run(old(d.handlers), d.dp.aliases, cmd).error) && d.handlers == old(d.handlers)
  {
    match cmd
    case AddHandler(t, k, a) =>
      r := d.AddEventHandler(t, k, a);
    case RemoveHandler(t, k, a) =>
      d.RemoveEventHandler(t, k, a);
      r := Pass;
  }
}
