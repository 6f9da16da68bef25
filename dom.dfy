/** The tree pointer the library drives (DomPointer). It is a collaborator,
    not part of the library: this module keeps only the state the library
    reads and writes through it — the alias table, the cache of resolved
    paths, the child lists of container nodes, the root listeners, the
    attribute calls, the data writes and the set of changed paths. */
module Dom {
  import opened Base

  /** A child node of a container, with the row tags the reconciler writes
      into its dataset (`teflonOwner`, `teflonIndex`). */
  datatype Row = Row(id: NodeId, owner: Option<Path>, index: int)

  /** A call of `setAttributes` / `revertAttributes` with a state's attribute
      changes. */
  datatype AttrCall = SetAttributes(changes: seq<Change>) | RevertAttributes(changes: seq<Change>)

  /** A call of `data(target, value, parent, append)`. */
  datatype Write = Write(target: Ref, value: Value, parent: Ref, append: bool)

  /** The pointer state that data filling and row reconciliation act on. */
  datatype Tree = Tree(
    aliases: map<string, Path>,
    refs: map<Path, NodeId>,
    children: map<Path, seq<Row>>,
    nextId: NodeId,
    writes: seq<Write>,
    changed: set<Path>)

  /** `dealias`: a known alias becomes its path; anything else is returned
      unchanged (it is taken to be a path already). */
  function Dealias(aliases: map<string, Path>, r: Ref): Ref
  {
    match r
    case Alias(n) => if n in aliases then At(aliases[n]) else r
    case _ => r
  }

  function Ids(rows: seq<Row>): set<NodeId>
  {
    set r | r in rows :: r.id
  }

  /** The reference-table invariant: a cached path whose parent is a known
      container names a node that is still one of that container's children. */
  ghost predicate Attached(refs: map<Path, NodeId>, children: map<Path, seq<Row>>)
  {
    forall p :: p in refs && p != [] && Parent(p) in children ==> refs[p] in Ids(children[Parent(p)])
  }

  /** Bindings of the first `n` child paths of `base` to the nodes in `rows`. */
  function ChildBindings(base: Path, rows: seq<Row>, n: nat): (m: map<Path, NodeId>)
    requires n <= |rows|
    ensures forall p :: p in m ==> |p| == |base| + 1 && p[..|base|] == base && p[|base|] < n
    ensures forall p :: p in m ==> m[p] == rows[p[|base|]].id
    decreases n
  {
    if n == 0 then map[]
    else
      var p := base + [n - 1];
      assert p[..|base|] == base;
      ChildBindings(base, rows, n - 1)[p := rows[n - 1].id]
  }

  /** `parse()` after a structural change under `base`: every cached path
      below `base` is dropped and the children of `base` are bound afresh. */
  function Reparse(refs: map<Path, NodeId>, base: Path, rows: seq<Row>): (r: map<Path, NodeId>)
    ensures forall p :: p in refs && !StrictlyUnder(base, p) ==> p in r && r[p] == refs[p]
    ensures forall p :: p in r && !StrictlyUnder(base, p) ==> p in refs
    ensures forall p :: p in r && StrictlyUnder(base, p) ==> |p| == |base| + 1 && p[|base|] < |rows| && r[p] == rows[p[|base|]].id
  {
    var kept := map p | p in refs && !StrictlyUnder(base, p) :: refs[p];
    var bound := ChildBindings(base, rows, |rows|);
    assert forall p :: p in bound ==> StrictlyUnder(base, p);
    kept + bound
  }

  class Pointer {
    var aliases: map<string, Path>
    var refs: map<Path, NodeId>
    var children: map<Path, seq<Row>>
    var nextId: NodeId
    /** One entry per root listener installed with `on(type)`. */
    var listening: multiset<EventType>
    var attributeLog: seq<AttrCall>
    var writes: seq<Write>
    var changed: set<Path>

    ghost predicate Valid()
      reads this
    {
      Attached(refs, children)
    }

    function View(): Tree
      reads this
    {
      Tree(aliases, refs, children, nextId, writes, changed)
    }

    constructor (children: map<Path, seq<Row>>, nextId: NodeId)
      ensures Valid()
      ensures aliases == map[] && refs == map[] && this.children == children && this.nextId == nextId
      ensures listening == multiset{} && attributeLog == [] && writes == [] && changed == {}
    {
      aliases := map[];
      refs := map[];
      this.children := children;
      this.nextId := nextId;
      listening := multiset{};
      attributeLog := [];
      writes := [];
      changed := {};
    }

    method On(t: EventType)
      modifies this`listening
      ensures listening == old(listening) + multiset{t}
    {
      listening := listening + multiset{t};
    }

    method Off(t: EventType)
      modifies this`listening
      ensures listening == old(listening) - multiset{t}
    {
      listening := listening - multiset{t};
    }

    method ApplyAttributes(changes: seq<Change>)
      modifies this`attributeLog
      ensures attributeLog == old(attributeLog) + [SetAttributes(changes)]
    {
      attributeLog := attributeLog + [SetAttributes(changes)];
    }

    method RevertAttributes(changes: seq<Change>)
      modifies this`attributeLog
      ensures attributeLog == old(attributeLog) + [AttrCall.RevertAttributes(changes)]
    {
      attributeLog := attributeLog + [AttrCall.RevertAttributes(changes)];
    }
  }
}
