/** The row reconciler: repeating a template row once per item of an array.
    A container's children are a sequence of rows; the rows generated for an
    anchor path carry that path as their owner tag. Reconciling makes the
    number of tagged rows equal to the number of items, then every item is
    written into its row. */
module Repeat {
  import opened Base
  import opened Dom

  predicate Owns(r: Row, path: Path)
  {
    r.owner == Some(path)
  }

  /** The rows tagged with `path`, in document order (`querySelectorAll`). */
  function Tagged(rows: seq<Row>, path: Path): (ts: seq<Row>)
    ensures |ts| <= |rows|
    ensures forall r :: r in ts ==> Owns(r, path)
  {
    if rows == [] then []
    else (if Owns(rows[0], path) then [rows[0]] else []) + Tagged(rows[1..], path)
  }

  /** The rows not tagged with `path`, in document order. */
  function Untagged(rows: seq<Row>, path: Path): seq<Row>
  {
    if rows == [] then []
    else (if Owns(rows[0], path) then [] else [rows[0]]) + Untagged(rows[1..], path)
  }

  function Count(rows: seq<Row>, path: Path): nat
  {
    |Tagged(rows, path)|
  }

  lemma TaggedAppend(a: seq<Row>, b: seq<Row>, path: Path)
    ensures Tagged(a + b, path) == Tagged(a, path) + Tagged(b, path)
    ensures Untagged(a + b, path) == Untagged(a, path) + Untagged(b, path)
  {
    TaggedOnly(a, b, path);
    UntaggedOnly(a, b, path);
  }

  lemma {:induction false} TaggedOnly(a: seq<Row>, b: seq<Row>, path: Path)
    ensures Tagged(a + b, path) == Tagged(a, path) + Tagged(b, path)
    decreases |a|
  {
    if a == [] {
      assert a + b == b;
    } else {
      assert (a + b)[0] == a[0] && (a + b)[1..] == a[1..] + b;
      TaggedOnly(a[1..], b, path);
    }
  }

  lemma {:induction false} UntaggedOnly(a: seq<Row>, b: seq<Row>, path: Path)
    ensures Untagged(a + b, path) == Untagged(a, path) + Untagged(b, path)
    decreases |a|
  {
    if a == [] {
      assert a + b == b;
    } else {
      assert (a + b)[0] == a[0] && (a + b)[1..] == a[1..] + b;
      UntaggedOnly(a[1..], b, path);
    }
  }

  lemma TaggedSingle(r: Row, path: Path)
    ensures Tagged([r], path) == if Owns(r, path) then [r] else []
    ensures Untagged([r], path) == if Owns(r, path) then [] else [r]
  {
    assert [r][1..] == [];
  }

  /** A row tagged with `path` is counted. */
  lemma CountOwned(rows: seq<Row>, i: nat, path: Path)
    requires i < |rows| && Owns(rows[i], path)
    ensures Count(rows, path) >= 1
  {
    assert rows == rows[..i] + [rows[i]] + rows[i + 1..];
    TaggedAppend(rows[..i] + [rows[i]], rows[i + 1..], path);
    TaggedAppend(rows[..i], [rows[i]], path);
    TaggedSingle(rows[i], path);
  }

  /** Removing a child from the container. */
  function RemoveAt(rows: seq<Row>, i: nat): (r: seq<Row>)
    requires i < |rows|
    ensures |r| == |rows| - 1
  {
    rows[..i] + rows[i + 1..]
  }

  lemma CountRemoveAt(rows: seq<Row>, i: nat, path: Path)
    requires i < |rows|
    ensures Count(RemoveAt(rows, i), path) == Count(rows, path) - if Owns(rows[i], path) then 1 else 0
  {
    assert rows == rows[..i] + [rows[i]] + rows[i + 1..];
    TaggedAppend(rows[..i] + [rows[i]], rows[i + 1..], path);
    TaggedAppend(rows[..i], [rows[i]], path);
    TaggedAppend(rows[..i], rows[i + 1..], path);
    TaggedSingle(rows[i], path);
  }

  /** The position of the first child with node identity `id`. */
  function IndexOf(rows: seq<Row>, id: NodeId): (i: nat)
    requires id in Ids(rows)
    ensures i < |rows| && rows[i].id == id
  {
    if rows[0].id == id then 0
    else
      var r :| r in rows && r.id == id;
      assert r in rows[1..];
      1 + IndexOf(rows[1..], id)
  }

  /** The position of the tagged row number `j` (0-based, document order). */
  function NthTagged(rows: seq<Row>, path: Path, j: nat): (p: nat)
    requires j < Count(rows, path)
    ensures p < |rows| && Owns(rows[p], path)
  {
    if Owns(rows[0], path) then
      if j == 0 then 0 else 1 + NthTagged(rows[1..], path, j - 1)
    else 1 + NthTagged(rows[1..], path, j)
  }

  /** The positions of the tagged rows, taken once before any removal
      (the static node list of the source). */
  function Positions(rows: seq<Row>, path: Path): (ps: seq<nat>)
    ensures |ps| == Count(rows, path)
    ensures forall j :: 0 <= j < |ps| ==> ps[j] == NthTagged(rows, path, j)
  {
    seq(Count(rows, path), j requires 0 <= j < Count(rows, path) => NthTagged(rows, path, j))
  }

  /** The container after shrinking to `n` tagged rows: the first `n` tagged
      rows stay, later tagged rows are gone, untagged rows stay. */
  function Keep(rows: seq<Row>, path: Path, n: nat): seq<Row>
  {
    if rows == [] then []
    else if Owns(rows[0], path) then
      if n == 0 then Keep(rows[1..], path, 0) else [rows[0]] + Keep(rows[1..], path, n - 1)
    else [rows[0]] + Keep(rows[1..], path, n)
  }

  lemma {:induction false} KeepAll(rows: seq<Row>, path: Path, n: nat)
    requires Count(rows, path) <= n
    ensures Keep(rows, path, n) == rows
    decreases |rows|
  {
    if rows != [] {
      if Owns(rows[0], path) {
        KeepAll(rows[1..], path, n - 1);
      } else {
        KeepAll(rows[1..], path, n);
      }
      assert rows == [rows[0]] + rows[1..];
    }
  }

  /** Shrinking keeps exactly the first `n` tagged rows, in order. */
  lemma {:induction false} KeepTagged(rows: seq<Row>, path: Path, n: nat)
    ensures n <= Count(rows, path) ==> Tagged(Keep(rows, path, n), path) == Tagged(rows, path)[..n]
    ensures n <= Count(rows, path) ==> Count(Keep(rows, path, n), path) == n
    decreases |rows|
  {
    if rows != [] {
      var rest := rows[1..];
      if Owns(rows[0], path) {
        if n == 0 {
          KeepTagged(rest, path, 0);
        } else {
          KeepTagged(rest, path, n - 1);
          TaggedAppend([rows[0]], Keep(rest, path, n - 1), path);
          TaggedSingle(rows[0], path);
        }
      } else {
        KeepTagged(rest, path, n);
        TaggedAppend([rows[0]], Keep(rest, path, n), path);
        TaggedSingle(rows[0], path);
      }
    }
  }

  /** Shrinking never removes an untagged row and keeps their order. */
  lemma {:induction false} KeepUntagged(rows: seq<Row>, path: Path, n: nat)
    ensures Untagged(Keep(rows, path, n), path) == Untagged(rows, path)
    decreases |rows|
  {
    if rows != [] {
      var rest := rows[1..];
      if Owns(rows[0], path) {
        if n == 0 {
          KeepUntagged(rest, path, 0);
        } else {
          KeepUntagged(rest, path, n - 1);
          TaggedAppend([rows[0]], Keep(rest, path, n - 1), path);
          TaggedSingle(rows[0], path);
        }
      } else {
        KeepUntagged(rest, path, n);
        TaggedAppend([rows[0]], Keep(rest, path, n), path);
        TaggedSingle(rows[0], path);
      }
    }
  }

  /** One turn of the shrink loop: removing the tagged row number `m - 1`
      (counted in the original container) from the container that keeps `m`
      tagged rows leaves the one that keeps `m - 1`. */
  lemma {:induction false} KeepStep(rows: seq<Row>, path: Path, m: nat)
    requires 1 <= m <= Count(rows, path)
    ensures NthTagged(rows, path, m - 1) < |Keep(rows, path, m)|
    ensures RemoveAt(Keep(rows, path, m), NthTagged(rows, path, m - 1)) == Keep(rows, path, m - 1)
    decreases |rows|
  {
    if Owns(rows[0], path) && m == 1 {
      KeepStepFirst(rows, path);
    } else {
      var rest := rows[1..];
      var n := if Owns(rows[0], path) then m - 1 else m;
      KeepStepRest(rows, path, m);
      KeepStep(rest, path, n);
      RemoveAtCons(rows[0], Keep(rest, path, n), NthTagged(rest, path, n - 1));
    }
  }

  lemma KeepStepFirst(rows: seq<Row>, path: Path)
    requires rows != [] && Owns(rows[0], path)
    ensures NthTagged(rows, path, 0) == 0
    ensures Keep(rows, path, 1) == [rows[0]] + Keep(rows[1..], path, 0)
    ensures Keep(rows, path, 0) == Keep(rows[1..], path, 0)
  {
  }

  /** How the keep / position functions unfold past a first row that is not
      the one removed. */
  lemma KeepStepRest(rows: seq<Row>, path: Path, m: nat)
    requires 1 <= m <= Count(rows, path)
    requires !(Owns(rows[0], path) && m == 1)
    ensures var n := if Owns(rows[0], path) then m - 1 else m;
      1 <= n <= Count(rows[1..], path) &&
      NthTagged(rows, path, m - 1) == 1 + NthTagged(rows[1..], path, n - 1) &&
      Keep(rows, path, m) == [rows[0]] + Keep(rows[1..], path, n) &&
      Keep(rows, path, m - 1) == [rows[0]] + Keep(rows[1..], path, n - 1)
  {
    assert Count(rows, path) == (if Owns(rows[0], path) then 1 else 0) + Count(rows[1..], path);
  }

  lemma RemoveAtCons(r: Row, rows: seq<Row>, i: nat)
    requires i < |rows|
    ensures RemoveAt([r] + rows, i + 1) == [r] + RemoveAt(rows, i)
  {
    assert ([r] + rows)[..i + 1] == [r] + rows[..i];
    assert ([r] + rows)[i + 2..] == rows[i + 1..];
  }

  /** The clones `cloneNode(true)` inserts when growing: fresh node
      identities from `id0` on, tagged with indices `lo .. hi - 1`. */
  function Clones(id0: NodeId, path: Path, lo: nat, hi: nat): (cs: seq<Row>)
    requires lo <= hi
    ensures |cs| == hi - lo
    ensures forall i :: 0 <= i < hi - lo ==> cs[i] == Row(id0 + i, Some(path), lo + i)
  {
    seq(hi - lo, i requires 0 <= i < hi - lo => Row(id0 + i, Some(path), lo + i))
  }

  lemma CountClones(id0: NodeId, path: Path, lo: nat, hi: nat)
    requires lo <= hi
    ensures Count(Clones(id0, path, lo, hi), path) == hi - lo
    decreases hi - lo
  {
    var cs := Clones(id0, path, lo, hi);
    if lo < hi {
      CountClones(id0 + 1, path, lo + 1, hi);
      assert cs == [cs[0]] + Clones(id0 + 1, path, lo + 1, hi);
      TaggedAppend([cs[0]], Clones(id0 + 1, path, lo + 1, hi), path);
      TaggedSingle(cs[0], path);
    }
  }

  /** The container after growing: the clones form a chain directly after
      the first row, everything else keeps its place. */
  function Grown(rows: seq<Row>, at: nat, id0: NodeId, path: Path, lo: nat, hi: nat): (r: seq<Row>)
    requires at < |rows| && lo <= hi
  {
    rows[..at + 1] + Clones(id0, path, lo, hi) + rows[at + 1..]
  }

  /** Growing adds exactly the clones to the tagged rows, right after the
      first row, and moves nothing else. */
  lemma GrownShape(rows: seq<Row>, at: nat, id0: NodeId, path: Path, lo: nat, hi: nat)
    requires at < |rows| && lo <= hi
    ensures var g := Grown(rows, at, id0, path, lo, hi);
      |g| == |rows| + (hi - lo) &&
      g[..at + 1] == rows[..at + 1] && g[at + 1 + (hi - lo)..] == rows[at + 1..] &&
      (forall i :: at < i <= at + (hi - lo) ==> g[i] == Row(id0 + (i - at - 1), Some(path), lo + (i - at - 1))) &&
      Count(g, path) == Count(rows, path) + (hi - lo)
  {
    var cs := Clones(id0, path, lo, hi);
    var g := Grown(rows, at, id0, path, lo, hi);
    assert rows == rows[..at + 1] + rows[at + 1..];
    TaggedAppend(rows[..at + 1], rows[at + 1..], path);
    TaggedAppend(rows[..at + 1] + cs, rows[at + 1..], path);
    TaggedAppend(rows[..at + 1], cs, path);
    CountClones(id0, path, lo, hi);
    forall i | at < i <= at + (hi - lo)
      ensures g[i] == Row(id0 + (i - at - 1), Some(path), lo + (i - at - 1))
    {
      assert g[i] == cs[i - at - 1];
    }
  }

  /** The part of the container a repeat acts on: the container's children,
      the path cache and the next fresh node identity. */
  datatype Layout = Layout(rows: seq<Row>, refs: map<Path, NodeId>, nextId: NodeId)

  /** The layout after choosing the first row, and that row's position. */
  datatype Anchored = Anchored(layout: Layout, at: nat)

  /** Tagging a row as row 0 of `path` (`dataset.teflonIndex`, `dataset.teflonOwner`). */
  function TagFirst(rows: seq<Row>, at: nat, path: Path): (r: seq<Row>)
    requires at < |rows|
    ensures |r| == |rows| && r[at] == Row(rows[at].id, Some(path), 0)
    ensures forall i :: 0 <= i < |rows| && i != at ==> r[i] == rows[i]
  {
    rows[at := Row(rows[at].id, Some(path), 0)]
  }

  /** `getInsertionRow`: reuse the node bound to the anchor path, or insert a
      fresh clone after child `start - 1` (append it to an empty container)
      and bind it; then tag the row as row 0 of the anchor. The insertion
      fails when child `start - 1` does not exist. */
  function Anchor(l: Layout, path: Path): (r: Result<Anchored>)
    requires path != []
    requires path in l.refs ==> l.refs[path] in Ids(l.rows)
    ensures r.Ok? ==>
      var Anchored(l1, at) := r.value;
      at < |l1.rows| && l1.rows[at] == Row(l1.rows[at].id, Some(path), 0) &&
      l1.refs == l.refs[path := l1.rows[at].id]
    ensures r.Err? <==> path !in l.refs && l.rows != [] && (path[|path| - 1] == 0 || path[|path| - 1] > |l.rows|)
    ensures r.Err? ==> r.error == NoSuchSibling(path[|path| - 1])
  {
    var start := path[|path| - 1];
    if path in l.refs then
      var at := IndexOf(l.rows, l.refs[path]);
      assert l.refs[path := l.rows[at].id] == l.refs;
      Ok(Anchored(Layout(TagFirst(l.rows, at, path), l.refs, l.nextId), at))
    else
      var clone := Row(l.nextId, None, 0);
      if l.rows == [] then
        Ok(Anchored(Layout(TagFirst([clone], 0, path), l.refs[path := clone.id], l.nextId + 1), 0))
      else if start == 0 || start > |l.rows| then
        Err(NoSuchSibling(start))
      else
        var rows := l.rows[..start] + [clone] + l.rows[start..];
        Ok(Anchored(Layout(TagFirst(rows, start, path), l.refs[path := clone.id], l.nextId + 1), start))
  }

  /** A bound anchor node is reused in place: no row is added and no other
      row changes. */
  lemma AnchorReuses(l: Layout, path: Path)
    requires path != [] && path in l.refs && l.refs[path] in Ids(l.rows)
    ensures Anchor(l, path).Ok?
    ensures var Anchored(l1, at) := Anchor(l, path).value;
      l1.refs == l.refs && l1.nextId == l.nextId && |l1.rows| == |l.rows| &&
      l.rows[at].id == l.refs[path] &&
      forall i :: 0 <= i < |l.rows| && i != at ==> l1.rows[i] == l.rows[i]
  {
  }

  /** An unbound anchor gets one fresh clone, at position `start` (or as
      the only child of an empty container); removing it gives back the
      original children. */
  lemma AnchorInserts(l: Layout, path: Path)
    requires path != [] && path !in l.refs && Anchor(l, path).Ok?
    ensures var Anchored(l1, at) := Anchor(l, path).value;
      at == (if l.rows == [] then 0 else path[|path| - 1]) &&
      l1.rows[at].id == l.nextId && l1.nextId == l.nextId + 1 &&
      RemoveAt(l1.rows, at) == l.rows
  {
    var Anchored(l1, at) := Anchor(l, path).value;
    if l.rows != [] {
      assert RemoveAt(l1.rows, at) == l1.rows[..at] + l1.rows[at + 1..];
      assert l1.rows[..at] == l.rows[..at];
      assert l1.rows[at + 1..] == l.rows[at..];
      assert l.rows == l.rows[..at] + l.rows[at..];
    }
  }

  /** The rows wanted are in place: the first row (when any row is wanted)
      and the layout before the grow / shrink step. */
  function Anchoring(l: Layout, path: Path, rowCount: nat): (r: Result<Anchored>)
    requires path != []
    requires path in l.refs ==> l.refs[path] in Ids(l.rows)
    ensures r.Ok? ==> path in r.value.layout.refs ==> r.value.layout.refs[path] in Ids(r.value.layout.rows)
    ensures r.Ok? && rowCount > 0 ==> r.value.at < |r.value.layout.rows|
  {
    if rowCount > 0 then
      var a := Anchor(l, path);
      assert a.Ok? ==> a.value.layout.rows[a.value.at] in a.value.layout.rows;
      a
    else Ok(Anchored(l, 0))
  }

  /** The step after the first row is chosen, as the source is written:
      grow, shrink, or — with equal counts — remove the node bound to the
      anchor path, even when rows are wanted (it is then the first row
      itself). */
  function SettledAsWritten(l1: Layout, at: nat, path: Path, rowCount: nat): Layout
    requires path in l1.refs ==> l1.refs[path] in Ids(l1.rows)
    requires rowCount > 0 ==> at < |l1.rows|
  {
    var had := Count(l1.rows, path);
    if had < rowCount then
      Layout(Grown(l1.rows, at, l1.nextId, path, had, rowCount), l1.refs, l1.nextId + (rowCount - had))
    else if had > rowCount then
      Layout(Keep(l1.rows, path, rowCount), l1.refs, l1.nextId)
    else if path in l1.refs then
      Layout(RemoveAt(l1.rows, IndexOf(l1.rows, l1.refs[path])), l1.refs, l1.nextId)
    else l1
  }

  /** The step after the first row is chosen, as intended: with equal
      counts the untagged node bound to the anchor path is removed only when
      no rows are wanted. */
  function Settled(l1: Layout, at: nat, path: Path, rowCount: nat): Layout
    requires path in l1.refs ==> l1.refs[path] in Ids(l1.rows)
    requires rowCount > 0 ==> at < |l1.rows|
  {
    var had := Count(l1.rows, path);
    if had < rowCount then
      Layout(Grown(l1.rows, at, l1.nextId, path, had, rowCount), l1.refs, l1.nextId + (rowCount - had))
    else if had > rowCount then
      Layout(Keep(l1.rows, path, rowCount), l1.refs, l1.nextId)
    else if rowCount == 0 && path in l1.refs then
      Layout(RemoveAt(l1.rows, IndexOf(l1.rows, l1.refs[path])), l1.refs, l1.nextId)
    else l1
  }

  /** `createRows` on the container's children, as the source is written. */
  function ReconcileAsWritten(l: Layout, path: Path, rowCount: nat): Result<Layout>
    requires path != []
    requires path in l.refs ==> l.refs[path] in Ids(l.rows)
  {
    var a := Anchoring(l, path, rowCount);
    if a.Err? then Err(a.error) else Ok(SettledAsWritten(a.value.layout, a.value.at, path, rowCount))
  }

  /** `createRows` on the container's children, as intended. */
  function Reconcile(l: Layout, path: Path, rowCount: nat): Result<Layout>
    requires path != []
    requires path in l.refs ==> l.refs[path] in Ids(l.rows)
  {
    var a := Anchoring(l, path, rowCount);
    if a.Err? then Err(a.error) else Ok(Settled(a.value.layout, a.value.at, path, rowCount))
  }

  /** Filling a one-item array into a container whose anchor row is the
      untagged template row leaves no tagged row at all. */
  lemma SingleItemLosesRow()
    ensures var l := Layout([Row(1, None, 0)], map[[0] := 1], 2);
      ReconcileAsWritten(l, [0], 1).Ok? &&
      Count(ReconcileAsWritten(l, [0], 1).value.rows, [0]) == 0 &&
      Count(Reconcile(l, [0], 1).value.rows, [0]) == 1
  {
    var l := Layout([Row(1, None, 0)], map[[0] := 1], 2);
    var tagged := Row(1, Some([0]), 0);
    assert [0] in l.refs && l.refs[[0]] == 1;
    assert IndexOf(l.rows, 1) == 0;
    assert TagFirst(l.rows, 0, [0]) == [tagged];
    assert Anchor(l, [0]) == Ok(Anchored(Layout([tagged], l.refs, 2), 0));
    TaggedSingle(tagged, [0]);
    assert RemoveAt([tagged], 0) == [];
  }

  /** Filling an empty array into a container whose only child is the
      untagged template row bound to the anchor empties the container. */
  lemma EmptyFillClearsTemplate(id: NodeId, index: int, path: Path, refs: map<Path, NodeId>, nextId: NodeId)
    requires path != [] && path in refs && refs[path] == id
    ensures var l := Layout([Row(id, None, index)], refs, nextId);
      Reconcile(l, path, 0) == Ok(Layout([], refs, nextId)) &&
      ReconcileAsWritten(l, path, 0) == Ok(Layout([], refs, nextId))
  {
    var rows := [Row(id, None, index)];
    assert IndexOf(rows, id) == 0;
    assert Tagged(rows, path) == [] by {
      assert Tagged(rows[..0], path) == [];
    }
    assert RemoveAt(rows, 0) == [];
  }

  /** The only failure is the missing sibling of an unbound anchor, and only
      when rows are wanted. */
  lemma ReconcileFails(l: Layout, path: Path, rowCount: nat)
    requires path != []
    requires path in l.refs ==> l.refs[path] in Ids(l.rows)
    ensures Reconcile(l, path, rowCount).Err? <==> rowCount > 0 && Anchor(l, path).Err?
    ensures Reconcile(l, path, rowCount).Err? ==> Reconcile(l, path, rowCount).error == NoSuchSibling(path[|path| - 1])
  {
  }

  /** After reconciling exactly `rowCount` rows carry the owner tag and no
      path binding other than the anchor's changes. */
  lemma ReconcileCount(l: Layout, path: Path, rowCount: nat)
    requires path != []
    requires path in l.refs ==> l.refs[path] in Ids(l.rows)
    requires Reconcile(l, path, rowCount).Ok?
    ensures var l2 := Reconcile(l, path, rowCount).value;
      Count(l2.rows, path) == rowCount &&
      forall p :: p != path ==> (p in l2.refs <==> p in l.refs) && (p in l.refs ==> l2.refs[p] == l.refs[p])
  {
    var Anchored(l1, at) := Anchoring(l, path, rowCount).value;
    var l2 := Reconcile(l, path, rowCount).value;
    var had := Count(l1.rows, path);
    if rowCount > 0 {
      CountOwned(l1.rows, at, path);
    }
    if had < rowCount {
      GrownShape(l1.rows, at, l1.nextId, path, had, rowCount);
    } else if had > rowCount {
      KeepTagged(l1.rows, path, rowCount);
    } else if rowCount == 0 && path in l1.refs {
      CountRemoveAt(l1.rows, IndexOf(l1.rows, l1.refs[path]), path);
    }
  }

  /** Re-parsing a container after its children changed keeps the path cache
      attached: the container's child paths are bound to its new children,
      and every other cached path is as before. */
  lemma ReparseAttached(refs: map<Path, NodeId>, refs1: map<Path, NodeId>, children: map<Path, seq<Row>>, base: Path, rows: seq<Row>)
    requires Attached(refs, children)
    requires forall p :: p in refs1 && !StrictlyUnder(base, p) ==> p in refs && refs1[p] == refs[p]
    ensures Attached(Reparse(refs1, base, rows), children[base := rows])
  {
    var r := Reparse(refs1, base, rows);
    var c := children[base := rows];
    forall p | p in r && p != [] && Parent(p) in c
      ensures r[p] in Ids(c[Parent(p)])
    {
      if Parent(p) == base {
        assert StrictlyUnder(base, p);
        assert rows[p[|base|]] in rows;
      }
    }
  }

  /** `createRows` on the pointer, as intended: reconcile the rows of
      container `base` for the anchor `base ++ [start]`, re-parse the paths
      below `base` and register `base` as changed. A missing container is
      reported before anything changes. */
  function AfterCreateRows(t: Tree, base: Path, start: nat, rowCount: nat): Result<Tree>
    requires Attached(t.refs, t.children)
  {
    if base !in t.children then Err(NotFound(At(base)))
    else
      var path := base + [start];
      assert Parent(path) == base;
      var c := Reconcile(Layout(t.children[base], t.refs, t.nextId), path, rowCount);
      if c.Err? then Err(c.error)
      else
        var rows := c.value.rows;
        Ok(Tree(t.aliases, Reparse(c.value.refs, base, rows), t.children[base := rows], c.value.nextId, t.writes, t.changed + {base}))
  }

  /** What `createRows` achieves: the container holds exactly `rowCount`
      rows tagged with the anchor, the path cache stays attached, only that
      container changes, and it is registered as changed. It fails only for
      a missing container or a missing sibling of an unbound anchor. */
  lemma CreateRowsEffect(t: Tree, base: Path, start: nat, rowCount: nat)
    requires Attached(t.refs, t.children)
    ensures var r := AfterCreateRows(t, base, start, rowCount);
      (r.Err? ==> r.error == NotFound(At(base)) || r.error == NoSuchSibling(start)) &&
      (base !in t.children ==> r == Err(NotFound(At(base)))) &&
      (r.Ok? ==>
        var u := r.value;
        Attached(u.refs, u.children) &&
        u.children.Keys == t.children.Keys &&
        Count(u.children[base], base + [start]) == rowCount &&
        (forall q :: q in t.children && q != base ==> u.children[q] == t.children[q]) &&
        u.aliases == t.aliases && u.writes == t.writes && u.changed == t.changed + {base})
  {
    if base in t.children {
      var path := base + [start];
      assert Parent(path) == base;
      var l := Layout(t.children[base], t.refs, t.nextId);
      ReconcileFails(l, path, rowCount);
      if Reconcile(l, path, rowCount).Ok? {
        ReconcileCount(l, path, rowCount);
        var l2 := Reconcile(l, path, rowCount).value;
        assert path != [] && Parent(path) == base && StrictlyUnder(base, path);
        ReparseAttached(t.refs, l2.refs, t.children, base, l2.rows);
      }
    }
  }

  /** `getInsertionRow` on the pointer: reuse or insert the first row of the
      anchor `path` in container `base`, bind it and tag it as row 0. */
  method InsertionRow(dp: Pointer, base: Path, path: Path) returns (r: Result<nat>)
    requires path != [] && base in dp.children
    requires path in dp.refs ==> dp.refs[path] in Ids(dp.children[base])
    modifies dp`children, dp`refs, dp`nextId
    ensures var a := Anchor(Layout(old(dp.children[base]), old(dp.refs), old(dp.nextId)), path);
      (a.Err? ==> r == Err(a.error) && dp.View() == old(dp.View())) &&
      (a.Ok? ==> r == Ok(a.value.at) && dp.View() == Placed(old(dp.View()), base, a.value.layout))
  {
    var rows := dp.children[base];
    var at: nat;
    if path in dp.refs {
      at := IndexOf(rows, dp.refs[path]);
    } else {
      var clone := Row(dp.nextId, None, 0);
      var start := path[|path| - 1];
      if |rows| > 0 {
        if start == 0 || start > |rows| {
          return Err(NoSuchSibling(start));
        }
        rows := rows[..start] + [clone] + rows[start..];
        at := start;
      } else {
        rows := [clone];
        at := 0;
      }
      dp.nextId := dp.nextId + 1;
      dp.refs := dp.refs[path := clone.id];
    }
    rows := TagFirst(rows, at, path);
    dp.children := dp.children[base := rows];
    return Ok(at);
  }

  /** One turn of the grow loop: inserting the next clone directly after the
      last one inserted extends the chain by one. */
  lemma GrowStep(rows: seq<Row>, at: nat, id0: NodeId, path: Path, lo: nat, idx: nat)
    requires at < |rows| && lo <= idx
    ensures var g := Grown(rows, at, id0, path, lo, idx);
      var node := at + (idx - lo);
      node < |g| &&
      Grown(rows, at, id0, path, lo, idx + 1) == g[..node + 1] + [Row(id0 + (idx - lo), Some(path), idx)] + g[node + 1..]
  {
    var g := Grown(rows, at, id0, path, lo, idx);
    var node := at + (idx - lo);
    var cs := Clones(id0, path, lo, idx);
    var c := Row(id0 + (idx - lo), Some(path), idx);
    assert Clones(id0, path, lo, idx + 1) == cs + [c];
    assert g[..node + 1] == rows[..at + 1] + cs;
    assert g[node + 1..] == rows[at + 1..];
  }

  /** `createRows` on the pointer (with the intended equal-count branch). */
  method CreateRows(dp: Pointer, base: Path, start: nat, rowCount: nat) returns (r: Outcome)
    requires dp.Valid()
    modifies dp`children, dp`refs, dp`nextId, dp`changed
    ensures dp.Valid()
    ensures CreatedRows(old(dp.View()), dp.View(), base, start, rowCount, r)
  {
    if base !in dp.children {
      return Fail(NotFound(At(base)));
    }
    ghost var t := dp.View();
    r := CreateRowsIn(dp, base, start, rowCount);
    CreateRowsState(t, dp.View(), base, start, rowCount, r);
  }

  /** The outcome and the pointer state `createRows` leaves, started from
      the pointer state `t`. */
  ghost predicate CreatedRows(t: Tree, u: Tree, base: Path, start: nat, rowCount: nat, r: Outcome)
    requires Attached(t.refs, t.children)
  {
    var s := AfterCreateRows(t, base, start, rowCount);
    u == StateAfter(t, s) && r == OutcomeOf(s)
  }

  lemma CreateRowsState(t: Tree, u: Tree, base: Path, start: nat, rowCount: nat, r: Outcome)
    requires Attached(t.refs, t.children)
    requires CreatedRows(t, u, base, start, rowCount, r)
    ensures Attached(u.refs, u.children)
  {
    CreateRowsEffect(t, base, start, rowCount);
  }

  /** `createRows` on an existing container: choose the first row, then
      grow, shrink or trim, then re-parse and register the change. */
  method CreateRowsIn(dp: Pointer, base: Path, start: nat, rowCount: nat) returns (r: Outcome)
    requires dp.Valid() && base in dp.children
    modifies dp`children, dp`refs, dp`nextId, dp`changed
    ensures CreatedRows(old(dp.View()), dp.View(), base, start, rowCount, r)
  {
    var path := base + [start];
    assert Parent(path) == base;
    ghost var t := dp.View();
    ghost var l1 := Layout(t.children[base], t.refs, t.nextId);
    var at := 0;
    if rowCount > 0 {
      var a := InsertionRow(dp, base, path);
      if a.Err? {
        ReconcileAnchorFails(t, base, start, rowCount);
        return Fail(a.error);
      }
      at := a.value;
      l1 := Anchor(l1, path).value.layout;
    } else {
      PlacedInPlace(t, base);
    }
    assert Anchoring(Layout(t.children[base], t.refs, t.nextId), path, rowCount) == Ok(Anchored(l1, at));
    Settle(dp, base, path, at, rowCount, l1);
    ReconcileSettles(t, dp.View(), base, start, rowCount, at, l1);
    r := Pass;
  }

  lemma ReconcileAnchorFails(t: Tree, base: Path, start: nat, rowCount: nat)
    requires Attached(t.refs, t.children) && base in t.children
    requires Anchoring(Layout(t.children[base], t.refs, t.nextId), base + [start], rowCount).Err?
    ensures CreatedRows(t, t, base, start, rowCount, Fail(Anchoring(Layout(t.children[base], t.refs, t.nextId), base + [start], rowCount).error))
  {
    assert Parent(base + [start]) == base;
  }

  /** The pointer state once the first row is in place (layout `l1`) and the
      container is settled (`u`) is the one `createRows` specifies. */
  lemma ReconcileSettles(t: Tree, u: Tree, base: Path, start: nat, rowCount: nat, at: nat, l1: Layout)
    requires Attached(t.refs, t.children) && base in t.children
    requires Anchoring(Layout(t.children[base], t.refs, t.nextId), base + [start], rowCount) == Ok(Anchored(l1, at))
    requires u == Settling(Placed(t, base, l1), base, Settled(l1, at, base + [start], rowCount))
    ensures CreatedRows(t, u, base, start, rowCount, Pass)
  {
    assert Parent(base + [start]) == base;
    OverrideTwice(t.children, Placed(t, base, l1).children, base, u.children[base]);
  }

  /** The pointer state once container `base` holds the layout `l`. */
  function Placed(t: Tree, base: Path, l: Layout): (u: Tree)
    ensures u.aliases == t.aliases && u.writes == t.writes && u.changed == t.changed
    ensures base in u.children && u.children[base] == l.rows
  {
    Tree(t.aliases, l.refs, t.children[base := l.rows], l.nextId, t.writes, t.changed)
  }

  lemma PlacedInPlace(t: Tree, base: Path)
    requires base in t.children
    ensures Placed(t, base, Layout(t.children[base], t.refs, t.nextId)) == t
  {
    assert t.children[base := t.children[base]] == t.children;
  }

  /** The pointer state once container `base` holds the settled layout `l2`
      and has been re-parsed and registered as changed. */
  function Settling(t1: Tree, base: Path, l2: Layout): (u: Tree)
    ensures u.aliases == t1.aliases && u.writes == t1.writes && base in u.children
  {
    Tree(t1.aliases, Reparse(l2.refs, base, l2.rows), t1.children[base := l2.rows], l2.nextId, t1.writes, t1.changed + {base})
  }

  lemma OverrideTwice(m: map<Path, seq<Row>>, m1: map<Path, seq<Row>>, k: Path, v: seq<Row>)
    requires k in m1 && m1 == m[k := m1[k]]
    ensures m1[k := v] == m[k := v]
  {
  }

  /** The grow / shrink / equal-count step of `createRows` on the children
      of container `base` once the first row is in place, then `parse()` and
      the registration of `base` as changed. */
  method Settle(dp: Pointer, base: Path, path: Path, at: nat, rowCount: nat, ghost l1: Layout)
    requires base in dp.children && l1 == Layout(dp.children[base], dp.refs, dp.nextId)
    requires path in l1.refs ==> l1.refs[path] in Ids(l1.rows)
    requires rowCount > 0 ==> at < |l1.rows|
    modifies dp`children, dp`refs, dp`nextId, dp`changed
    ensures dp.View() == Settling(old(dp.View()), base, Settled(l1, at, path, rowCount))
  {
    var rows := SettleRows(dp, base, path, at, rowCount, l1);
    dp.children := dp.children[base := rows];
    dp.refs := Reparse(dp.refs, base, rows);
    dp.changed := dp.changed + {base};
  }

  /** The rows of container `base` after the grow / shrink / equal-count
      step; only the node counter is touched. */
  method SettleRows(dp: Pointer, base: Path, path: Path, at: nat, rowCount: nat, ghost l1: Layout) returns (rows: seq<Row>)
    requires base in dp.children && l1 == Layout(dp.children[base], dp.refs, dp.nextId)
    requires path in l1.refs ==> l1.refs[path] in Ids(l1.rows)
    requires rowCount > 0 ==> at < |l1.rows|
    modifies dp`nextId
    ensures Layout(rows, l1.refs, dp.nextId) == Settled(l1, at, path, rowCount)
  {
    rows := dp.children[base];
    var count := |Positions(rows, path)|;
    if count < rowCount {
      rows := GrowRows(dp, rows, at, path, count, rowCount);
    } else if count > rowCount {
      rows := ShrinkRows(rows, path, rowCount);
    } else if rowCount == 0 && path in dp.refs {
      rows := RemoveAt(rows, IndexOf(rows, dp.refs[path]));
    }
  }

  /** The grow branch: insert `rowCount - from` clones as a chain after the
      first row at `at`, tagging them `from .. rowCount - 1`. */
  method GrowRows(dp: Pointer, rows0: seq<Row>, at: nat, path: Path, from: nat, rowCount: nat) returns (rows: seq<Row>)
    requires at < |rows0| && from <= rowCount
    modifies dp`nextId
    ensures rows == Grown(rows0, at, old(dp.nextId), path, from, rowCount)
    ensures dp.nextId == old(dp.nextId) + (rowCount - from)
  {
    rows := rows0;
    ghost var id0 := dp.nextId;
    var node := at;
    var idx := from;
    assert rows == Grown(rows0, at, id0, path, from, from) by {
      assert rows0 == rows0[..at + 1] + rows0[at + 1..];
    }
    while idx < rowCount
      invariant from <= idx <= rowCount
      invariant node == at + (idx - from)
      invariant dp.nextId == id0 + (idx - from)
      invariant rows == Grown(rows0, at, id0, path, from, idx)
      decreases rowCount - idx
    {
      GrowStep(rows0, at, id0, path, from, idx);
      var clone := Row(dp.nextId, Some(path), idx);
      dp.nextId := dp.nextId + 1;
      rows := rows[..node + 1] + [clone] + rows[node + 1..];
      node := node + 1;
      idx := idx + 1;
    }
  }

  /** The shrink branch: with the tagged positions taken once, remove tagged
      rows from the last one backwards until `rowCount` remain. */
  method ShrinkRows(rows0: seq<Row>, path: Path, rowCount: nat) returns (rows: seq<Row>)
    requires rowCount <= Count(rows0, path)
    ensures rows == Keep(rows0, path, rowCount)
  {
    rows := rows0;
    var nodes := Positions(rows0, path);
    var count := |nodes|;
    KeepAll(rows0, path, count);
    while count > rowCount
      invariant rowCount <= count <= |nodes|
      invariant rows == Keep(rows0, path, count)
      decreases count
    {
      ShrinkStep(rows0, path, count);
      count := count - 1;
      rows := RemoveAt(rows, nodes[count]);
    }
  }

  /** One turn of the shrink loop: removing the last kept tagged row, found
      in the positions taken before the loop, keeps one tagged row fewer. */
  lemma ShrinkStep(rows: seq<Row>, path: Path, m: nat)
    requires 1 <= m <= Count(rows, path)
    ensures Positions(rows, path)[m - 1] < |Keep(rows, path, m)|
    ensures RemoveAt(Keep(rows, path, m), Positions(rows, path)[m - 1]) == Keep(rows, path, m - 1)
  {
    KeepStep(rows, path, m);
  }

  /** The writes issued for one object of key → data path: every key, in
      mapping order, with the value picked from `item` and taken relative to
      `parent` (a row of `fillRows`, or the target of a composite spec). */
  function KeyWrites(def: seq<(Ref, string)>, item: Value, parent: Ref, append: bool, pick: (string, Value) -> Value): (ws: seq<Write>)
    ensures |ws| == |def|
  {
    if def == [] then []
    else
      var k := |def| - 1;
      KeyWrites(def[..k], item, parent, append, pick) + [Write(def[k].0, pick(def[k].1, item), parent, append)]
  }

  /** The writes `fillRows` issues for `items`, row by row. */
  function RowWrites(base: Path, def: seq<(Ref, string)>, items: seq<Value>, start: nat, append: bool, pick: (string, Value) -> Value): (ws: seq<Write>)
    ensures |ws| == |items| * |def|
  {
    if items == [] then []
    else
      var n := |items| - 1;
      RowWrites(base, def, items[..n], start, append, pick) + KeyWrites(def, items[n], At(base + [start + n]), append, pick)
  }

  lemma {:induction false} KeyWritesAt(def: seq<(Ref, string)>, item: Value, parent: Ref, append: bool, pick: (string, Value) -> Value, k: nat)
    requires k < |def|
    ensures KeyWrites(def, item, parent, append, pick)[k] == Write(def[k].0, pick(def[k].1, item), parent, append)
    decreases |def|
  {
    if k < |def| - 1 {
      KeyWritesAt(def[..|def| - 1], item, parent, append, pick, k);
    }
  }

  /** Row `i` of the data is written at `base ++ [start + i]`: write
      `i * |def| + k` sets key `k` of the mapping to the value picked from
      item `i`, so rows come in data order and keys in mapping order. */
  lemma {:induction false} RowWritesAt(base: Path, def: seq<(Ref, string)>, items: seq<Value>, start: nat, append: bool, pick: (string, Value) -> Value, i: nat, k: nat)
    requires i < |items| && k < |def|
    ensures i * |def| + k < |items| * |def|
    ensures RowWrites(base, def, items, start, append, pick)[i * |def| + k] ==
      Write(def[k].0, pick(def[k].1, items[i]), At(base + [start + i]), append)
    decreases |items|
  {
    var n := |items| - 1;
    var front := RowWrites(base, def, items[..n], start, append, pick);
    var last := KeyWrites(def, items[n], At(base + [start + n]), append, pick);
    assert RowWrites(base, def, items, start, append, pick) == front + last;
    BlockIndex(i, n, |def|, k);
    if i < n {
      RowWritesAt(base, def, items[..n], start, append, pick, i, k);
    } else {
      KeyWritesAt(def, items[n], At(base + [start + n]), append, pick, k);
    }
  }

  /** Index arithmetic of `|def|`-sized blocks. */
  lemma BlockIndex(i: nat, n: nat, d: nat, k: nat)
    requires i <= n && k < d
    ensures (n + 1) * d == n * d + d
    ensures i < n ==> i * d + k < n * d
    ensures i == n ==> i * d + k == n * d + k
  {
    if i < n {
      assert (i + 1) * d <= n * d;
    }
  }

  /** The inner loop of `fillRows` (and of a composite spec in `_fill`):
      `data(key, pick(def[key], item), parent, append)` for every key. */
  method WriteKeys(dp: Pointer, def: seq<(Ref, string)>, item: Value, parent: Ref, append: bool, pick: (string, Value) -> Value)
    modifies dp`writes
    ensures dp.writes == old(dp.writes) + KeyWrites(def, item, parent, append, pick)
  {
    var k := 0;
    while k < |def|
      invariant k <= |def|
      invariant dp.writes == old(dp.writes) + KeyWrites(def[..k], item, parent, append, pick)
    {
      assert def[..k + 1][..k] == def[..k];
      dp.writes := dp.writes + [Write(def[k].0, pick(def[k].1, item), parent, append)];
      k := k + 1;
    }
    assert def[..k] == def;
  }

  /** `fillRows`: for each item in order, write every key of the mapping
      into the row at `base ++ [pos]`, advancing `pos` from `start`. */
  method FillRows(dp: Pointer, base: Path, def: seq<(Ref, string)>, items: seq<Value>, start: nat, append: bool, pick: (string, Value) -> Value)
    modifies dp`writes
    ensures dp.writes == old(dp.writes) + RowWrites(base, def, items, start, append, pick)
  {
    var pos := start;
    var idx := 0;
    while idx < |items|
      invariant idx <= |items| && pos == start + idx
      invariant dp.writes == old(dp.writes) + RowWrites(base, def, items[..idx], start, append, pick)
    {
      WriteKeys(dp, def, items[idx], At(base + [pos]), append, pick);
      assert items[..idx + 1][..idx] == items[..idx];
      pos := pos + 1;
      idx := idx + 1;
    }
    assert items[..idx] == items;
  }

  /** `repeat(pdef, data, cpath, append)` on the pointer state `t`: reject
      non-array data, split the dealiased anchor path into its parent and
      last offset, reconcile the rows, then fill them. */
  function AfterRepeat(t: Tree, pdef: seq<(Ref, string)>, data: Value, cpath: Ref, append: bool, pick: (string, Value) -> Value): Result<Tree>
    requires Attached(t.refs, t.children)
  {
    if !data.Arr? then Err(ItemsMustBeArray)
    else
      var p := Dealias(t.aliases, cpath);
      if !p.At? || p.path == [] then Err(NotFound(cpath))
      else
        var base := p.path[..|p.path| - 1];
        var start := p.path[|p.path| - 1];
        var c := AfterCreateRows(t, base, start, |data.elems|);
        if c.Err? then c
        else Ok(c.value.(writes := c.value.writes + RowWrites(base, pdef, data.elems, start, append, pick)))
  }

  /** What `repeat` guarantees: non-array data is rejected before anything
      changes; on success the container of the anchor holds exactly one
      tagged row per item, the rows are filled in order after the earlier
      writes, only that container changed and it is registered as changed. */
  lemma RepeatEffect(t: Tree, pdef: seq<(Ref, string)>, data: Value, cpath: Ref, append: bool, pick: (string, Value) -> Value)
    requires Attached(t.refs, t.children)
    ensures var r := AfterRepeat(t, pdef, data, cpath, append, pick);
      (!data.Arr? ==> r == Err(ItemsMustBeArray)) &&
      (r.Ok? ==>
        var p := Dealias(t.aliases, cpath).path;
        var base := p[..|p| - 1];
        var u := r.value;
        data.Arr? && Dealias(t.aliases, cpath).At? && p != [] && base in t.children &&
        Attached(u.refs, u.children) &&
        Count(u.children[base], p) == |data.elems| &&
        (forall q :: q in t.children && q != base ==> u.children[q] == t.children[q]) &&
        u.writes == t.writes + RowWrites(base, pdef, data.elems, p[|p| - 1], append, pick) &&
        u.aliases == t.aliases && u.changed == t.changed + {base})
  {
    if data.Arr? {
      var p := Dealias(t.aliases, cpath);
      if p.At? && p.path != [] {
        var base := p.path[..|p.path| - 1];
        assert p.path == base + [p.path[|p.path| - 1]];
        CreateRowsEffect(t, base, p.path[|p.path| - 1], |data.elems|);
      }
    }
  }

  /** The outcome and the pointer state `repeat` leaves. */
  ghost predicate Repeated(t: Tree, u: Tree, pdef: seq<(Ref, string)>, data: Value, cpath: Ref, append: bool, pick: (string, Value) -> Value, r: Outcome)
    requires Attached(t.refs, t.children)
  {
    var s := AfterRepeat(t, pdef, data, cpath, append, pick);
    u == StateAfter(t, s) && r == OutcomeOf(s)
  }

  /** `repeat` on the pointer. */
  method Repeat(dp: Pointer, pdef: seq<(Ref, string)>, data: Value, cpath: Ref, append: bool, pick: (string, Value) -> Value) returns (r: Outcome)
    requires dp.Valid()
    modifies dp`children, dp`refs, dp`nextId, dp`changed, dp`writes
    ensures dp.Valid()
    ensures Repeated(old(dp.View()), dp.View(), pdef, data, cpath, append, pick, r)
  {
    if !data.Arr? {
      return Fail(ItemsMustBeArray);
    }
    var p := Dealias(dp.aliases, cpath);
    if !p.At? || p.path == [] {
      return Fail(NotFound(cpath));
    }
    var base := p.path[..|p.path| - 1];
    var start := p.path[|p.path| - 1];
    ghost var t := dp.View();
    r := CreateRows(dp, base, start, |data.elems|);
    if r.Fail? {
      return;
    }
    ghost var t1 := dp.View();
    FillRows(dp, base, pdef, data.elems, start, append, pick);
    RepeatState(t, t1, dp.View(), pdef, data, cpath, append, pick);
  }

  lemma RepeatState(t: Tree, t1: Tree, u: Tree, pdef: seq<(Ref, string)>, data: Value, cpath: Ref, append: bool, pick: (string, Value) -> Value)
    requires Attached(t.refs, t.children) && data.Arr?
    requires Dealias(t.aliases, cpath).At? && Dealias(t.aliases, cpath).path != []
    requires var p := Dealias(t.aliases, cpath).path;
      CreatedRows(t, t1, p[..|p| - 1], p[|p| - 1], |data.elems|, Pass)
    requires var p := Dealias(t.aliases, cpath).path;
      u == t1.(writes := t1.writes + RowWrites(p[..|p| - 1], pdef, data.elems, p[|p| - 1], append, pick))
    ensures Repeated(t, u, pdef, data, cpath, append, pick, Pass)
  {
  }
}
