/** Values shared by every part of the model: paths, path/alias arguments,
    data values, change descriptors and the errors the library throws. */
module Base {

  datatype Option<+T> = None | Some(value: T)

  /** A positional path: the offsets from the tree root (`:0:1:2` is [0, 1, 2]). */
  type Path = seq<nat>

  /** Identity of a tree node. */
  type NodeId = nat

  type EventType = string

  /** The name of an action emitted when a bound event fires. */
  type Action = string

  /** What callers pass where the library expects "a path or an alias":
      a symbolic name, a positional path, or nothing (undefined / null). */
  datatype Ref = Alias(name: string) | At(path: Path) | Unset

  /** JavaScript truthiness of a path argument: undefined, null and the empty
      string are false. */
  predicate Truthy(r: Ref)
  {
    match r
    case Alias(n) => n != ""
    case At(p) => p != []
    case Unset => false
  }

  /** The data the library fills templates with (a JSON value). */
  datatype Value =
    | Undefined
    | Null
    | Bool(b: bool)
    | Num(n: int)
    | Str(s: string)
    | Arr(elems: seq<Value>)
    | Obj(fields: seq<(string, Value)>)

  /** A change descriptor `{path, op, name, val}` of a state: for an event
      change `name` is the event type and `val` the action; for an attribute
      change they are the attribute and its value. */
  datatype Change = Change(path: Ref, op: string, name: string, val: string)

  datatype Error =
    | DuplicateAction(action: Action, key: Ref)
    | CloneFromMaster
    | CloneNeedsPath
    | StateDoesNotExist(state: string)
    | AlreadyActivated(state: string)
    | AlreadyDisabled(state: string)
    | AlreadyAdded(state: string)
    | NotInstances(state: string)
    | NotAFunction(what: string)
    | ReadOfUndefined(property: string)
    | ItemsMustBeArray
    | PickedNotArray(target: Ref, dpath: string)
    | UnknownItemsType(kind: string)
    | UnsupportedSpec(kind: string)
    | UnknownMappingType(mapType: string)
    | NoSuchDataMap(mapName: string)
    | NotFound(key: Ref)
    | NoSuchSibling(offset: nat)

  datatype Result<+T> = Ok(value: T) | Err(error: Error)

  datatype Outcome = Pass | Fail(error: Error)

  /** The state an operation leaves: its new state, or the prior one when
      it throws. */
  function StateAfter<T>(prior: T, s: Result<T>): T
  {
    if s.Ok? then s.value else prior
  }

  /** Whether an operation returned or threw, and what. */
  function OutcomeOf<T>(s: Result<T>): Outcome
  {
    if s.Ok? then Pass else Fail(s.error)
  }

  /** The parent of a non-empty path. */
  function Parent(p: Path): Path
    requires p != []
  {
    p[..|p| - 1]
  }

  /** `q` lies strictly below `p` in the tree. */
  predicate StrictlyUnder(p: Path, q: Path)
  {
    |p| < |q| && q[..|p|] == p
  }

  lemma AppendAssoc<T>(a: seq<T>, b: seq<T>, c: seq<T>)
    ensures a + b + c == a + (b + c)
  {
  }

  lemma ConsAppend<T>(s: seq<T>, r: seq<T>)
    requires s != []
    ensures s + r == [s[0]] + (s[1..] + r)
  {
    assert s == [s[0]] + s[1..];
  }
}
