/**
 * The emission loops the two importers share: each material's unit list is
 * walked in order, a vertex is created for the first unit that names a source
 * vertex index not yet in the vertex map, and every unit appends the
 * (saturated) position of its index's vertex to the index buffer.
 */
module ImporterEmit {
  import opened ImporterTypes

  /** The unit lists one after the other. */
  function Concat(lists: seq<seq<VertexUnit>>): seq<VertexUnit>
    decreases |lists|
  {
    if |lists| == 0 then [] else Concat(lists[..|lists| - 1]) + lists[|lists| - 1]
  }

  /** The source indices of the first `n` units. */
  function Met(units: seq<VertexUnit>, n: nat): set<nat>
    requires n <= |units|
  {
    if n == 0 then {} else Met(units, n - 1) + {units[n - 1].index}
  }

  /** The source indices of the units of the first `n` lists. */
  function MetInLists(lists: seq<seq<VertexUnit>>, n: nat): set<nat>
    requires n <= |lists|
  {
    if n == 0 then {} else MetInLists(lists, n - 1) + Met(lists[n - 1], |lists[n - 1]|)
  }

  /**
   * The vertices the walk over the first `n` units of one list appends, in
   * order: one for each unit whose source index is neither in `seen` nor met
   * earlier in the list, attached to `material`.
   */
  function NewVertices(units: seq<VertexUnit>, n: nat, material: nat, seen: set<nat>): seq<EmittedVertex>
    requires n <= |units|
  {
    if n == 0 then []
    else
      NewVertices(units, n - 1, material, seen)
        + (if units[n - 1].index in seen || units[n - 1].index in Met(units, n - 1) then []
           else [EmittedVertex(units[n - 1], material)])
  }

  /**
   * The vertices the walk over the first `n` lists of one pass appends, in
   * order (`vertexOffset++`): each list's new vertices in turn, list `m` on
   * material `materialBase + m`, an index counting as seen once `seen` or an
   * earlier list holds it.
   */
  function PassVertices(lists: seq<seq<VertexUnit>>, n: nat, materialBase: nat, seen: set<nat>): seq<EmittedVertex>
    requires n <= |lists|
  {
    if n == 0 then []
    else
      PassVertices(lists, n - 1, materialBase, seen)
        + NewVertices(lists[n - 1], |lists[n - 1]|, materialBase + (n - 1), seen + MetInLists(lists, n - 1))
  }

  /** The state of the emission loops: the vertex map, the vertices and the indices written so far. */
  datatype WalkState = WalkState(vmap: map<nat, nat>, vertices: seq<EmittedVertex>, emitted: seq<nat>)

  /**
   * The inner loop's state after its first `n` units: a unit whose source
   * index is not mapped yet maps it to the next vertex position and appends
   * its vertex, and every unit appends its index's saturated position.
   */
  function UnitsWalk(units: seq<VertexUnit>, n: nat, material: nat, vmap0: map<nat, nat>, vertices0: seq<EmittedVertex>): WalkState
    requires n <= |units|
  {
    if n == 0 then WalkState(vmap0, vertices0, [])
    else
      var w := UnitsWalk(units, n - 1, material, vmap0, vertices0);
      var u := units[n - 1];
      var vm := if u.index in w.vmap then w.vmap else w.vmap[u.index := |w.vertices|];
      var vs := if u.index in w.vmap then w.vertices else w.vertices + [EmittedVertex(u, material)];
      WalkState(vm, vs, w.emitted + [SaturateInt32(vm[u.index])])
  }

  /** The outer loop's state after its first `n` lists, list `m` on material `materialBase + m`. */
  function ListsWalk(lists: seq<seq<VertexUnit>>, n: nat, materialBase: nat, vmap0: map<nat, nat>, vertices0: seq<EmittedVertex>): WalkState
    requires n <= |lists|
  {
    if n == 0 then WalkState(vmap0, vertices0, [])
    else
      var w := ListsWalk(lists, n - 1, materialBase, vmap0, vertices0);
      var u := UnitsWalk(lists[n - 1], |lists[n - 1]|, materialBase + (n - 1), w.vmap, w.vertices);
      WalkState(u.vmap, u.vertices, w.emitted + u.emitted)
  }

  /** One more unit: the inner loop's step, spelled out. */
  lemma UnitsWalkNext(units: seq<VertexUnit>, n: nat, material: nat, vmap0: map<nat, nat>, vertices0: seq<EmittedVertex>)
    requires 0 < n <= |units|
    ensures var w := UnitsWalk(units, n - 1, material, vmap0, vertices0);
      var u := units[n - 1];
      var next := UnitsWalk(units, n, material, vmap0, vertices0);
      && next.vmap == (if u.index in w.vmap then w.vmap else w.vmap[u.index := |w.vertices|])
      && next.vertices == (if u.index in w.vmap then w.vertices else w.vertices + [EmittedVertex(u, material)])
      && next.emitted == w.emitted + [SaturateInt32(next.vmap[u.index])]
  {
  }

  /** One more list: the outer loop's step, spelled out. */
  lemma ListsWalkNext(lists: seq<seq<VertexUnit>>, n: nat, materialBase: nat, vmap0: map<nat, nat>, vertices0: seq<EmittedVertex>)
    requires 0 < n <= |lists|
    ensures var w := ListsWalk(lists, n - 1, materialBase, vmap0, vertices0);
      var u := UnitsWalk(lists[n - 1], |lists[n - 1]|, materialBase + (n - 1), w.vmap, w.vertices);
      var next := ListsWalk(lists, n, materialBase, vmap0, vertices0);
      && next.vmap == u.vmap && next.vertices == u.vertices && next.emitted == w.emitted + u.emitted
  {
  }

  /** The inner loop's step on its own state variables. */
  lemma UnitsWalkStep(
    units: seq<VertexUnit>, n: nat, material: nat, vmap0: map<nat, nat>, vertices0: seq<EmittedVertex>,
    vmap: map<nat, nat>, vertices: seq<EmittedVertex>, emitted: seq<nat>)
    requires 0 < n <= |units| && UnitsWalk(units, n - 1, material, vmap0, vertices0) == WalkState(vmap, vertices, emitted)
    ensures var u := units[n - 1];
      var vm := if u.index in vmap then vmap else vmap[u.index := |vertices|];
      var vs := if u.index in vmap then vertices else vertices + [EmittedVertex(u, material)];
      UnitsWalk(units, n, material, vmap0, vertices0) == WalkState(vm, vs, emitted + [SaturateInt32(vm[u.index])])
  {
    UnitsWalkNext(units, n, material, vmap0, vertices0);
  }

  /** The outer loop's step on its own state variables: one run of the inner loop on list `i`. */
  lemma ListsWalkStep(
    lists: seq<seq<VertexUnit>>, n: nat, materialBase: nat, vmap0: map<nat, nat>, vertices0: seq<EmittedVertex>,
    vmap: map<nat, nat>, vertices: seq<EmittedVertex>, emitted: seq<nat>,
    vm: map<nat, nat>, vs: seq<EmittedVertex>, more: seq<nat>)
    requires 0 < n <= |lists| && ListsWalk(lists, n - 1, materialBase, vmap0, vertices0) == WalkState(vmap, vertices, emitted)
    requires UnitsWalk(lists[n - 1], |lists[n - 1]|, materialBase + (n - 1), vmap, vertices) == WalkState(vm, vs, more)
    ensures ListsWalk(lists, n, materialBase, vmap0, vertices0) == WalkState(vm, vs, emitted + more)
  {
    ListsWalkNext(lists, n, materialBase, vmap0, vertices0);
  }

  /** The inner walk's map holds the old keys and the source indices of the units walked. */
  lemma {:induction false} UnitsWalkKeys(units: seq<VertexUnit>, n: nat, material: nat, vmap0: map<nat, nat>, vertices0: seq<EmittedVertex>)
    requires n <= |units|
    ensures UnitsWalk(units, n, material, vmap0, vertices0).vmap.Keys == vmap0.Keys + Met(units, n)
  {
    if n > 0 {
      UnitsWalkKeys(units, n - 1, material, vmap0, vertices0);
      UnitsWalkNext(units, n, material, vmap0, vertices0);
    }
  }

  /**
   * The inner walk appends exactly NewVertices: a vertex for each unit whose
   * source index is new, in the order the units come.
   */
  lemma {:induction false} UnitsWalkOrder(units: seq<VertexUnit>, n: nat, material: nat, vmap0: map<nat, nat>, vertices0: seq<EmittedVertex>)
    requires n <= |units|
    ensures UnitsWalk(units, n, material, vmap0, vertices0).vertices == vertices0 + NewVertices(units, n, material, vmap0.Keys)
  {
    if n > 0 {
      UnitsWalkOrder(units, n - 1, material, vmap0, vertices0);
      UnitsWalkKeys(units, n - 1, material, vmap0, vertices0);
      UnitsWalkNext(units, n, material, vmap0, vertices0);
      var w := UnitsWalk(units, n - 1, material, vmap0, vertices0);
      NewVerticesNext(units, n, material, vmap0.Keys, vertices0, w.vmap.Keys, w.vertices);
    }
  }

  /** NewVertices grows by the next unit's vertex exactly when its index is not mapped yet. */
  lemma NewVerticesNext(
    units: seq<VertexUnit>, n: nat, material: nat, seen: set<nat>, vertices0: seq<EmittedVertex>,
    keys: set<nat>, vertices: seq<EmittedVertex>)
    requires 0 < n <= |units|
    requires keys == seen + Met(units, n - 1)
    requires vertices == vertices0 + NewVertices(units, n - 1, material, seen)
    ensures (if units[n - 1].index in keys then vertices else vertices + [EmittedVertex(units[n - 1], material)])
      == vertices0 + NewVertices(units, n, material, seen)
  {
    var earlier := NewVertices(units, n - 1, material, seen);
    var v := EmittedVertex(units[n - 1], material);
    assert (vertices0 + earlier) + [v] == vertices0 + (earlier + [v]);
  }

  /** The outer walk's map holds the old keys and the source indices of the lists walked. */
  lemma {:induction false} ListsWalkKeys(lists: seq<seq<VertexUnit>>, n: nat, materialBase: nat, vmap0: map<nat, nat>, vertices0: seq<EmittedVertex>)
    requires n <= |lists|
    ensures ListsWalk(lists, n, materialBase, vmap0, vertices0).vmap.Keys == vmap0.Keys + MetInLists(lists, n)
  {
    if n > 0 {
      ListsWalkKeys(lists, n - 1, materialBase, vmap0, vertices0);
      ListsWalkNext(lists, n, materialBase, vmap0, vertices0);
      var w := ListsWalk(lists, n - 1, materialBase, vmap0, vertices0);
      UnitsWalkKeys(lists[n - 1], |lists[n - 1]|, materialBase + (n - 1), w.vmap, w.vertices);
    }
  }

  /**
   * The outer walk appends exactly PassVertices: each list's new vertices in
   * turn, every vertex at the next position (`vertexOffset++`).
   */
  lemma {:induction false} ListsWalkOrder(lists: seq<seq<VertexUnit>>, n: nat, materialBase: nat, vmap0: map<nat, nat>, vertices0: seq<EmittedVertex>)
    requires n <= |lists|
    ensures ListsWalk(lists, n, materialBase, vmap0, vertices0).vertices == vertices0 + PassVertices(lists, n, materialBase, vmap0.Keys)
  {
    if n > 0 {
      ListsWalkOrder(lists, n - 1, materialBase, vmap0, vertices0);
      ListsWalkKeys(lists, n - 1, materialBase, vmap0, vertices0);
      ListsWalkNext(lists, n, materialBase, vmap0, vertices0);
      var w := ListsWalk(lists, n - 1, materialBase, vmap0, vertices0);
      UnitsWalkOrder(lists[n - 1], |lists[n - 1]|, materialBase + (n - 1), w.vmap, w.vertices);
      PassVerticesNext(lists, n, materialBase, vmap0.Keys, vertices0, w.vmap.Keys, w.vertices);
    }
  }

  /** PassVertices grows by the next list's new vertices, given the keys mapped before it. */
  lemma PassVerticesNext(
    lists: seq<seq<VertexUnit>>, n: nat, materialBase: nat, seen: set<nat>, vertices0: seq<EmittedVertex>,
    keys: set<nat>, vertices: seq<EmittedVertex>)
    requires 0 < n <= |lists|
    requires keys == seen + MetInLists(lists, n - 1)
    requires vertices == vertices0 + PassVertices(lists, n - 1, materialBase, seen)
    ensures vertices + NewVertices(lists[n - 1], |lists[n - 1]|, materialBase + (n - 1), keys)
      == vertices0 + PassVertices(lists, n, materialBase, seen)
  {
    var earlier := PassVertices(lists, n - 1, materialBase, seen);
    var added := NewVertices(lists[n - 1], |lists[n - 1]|, materialBase + (n - 1), keys);
    assert (vertices0 + earlier) + added == vertices0 + (earlier + added);
  }

  /**
   * The vertex map of the current pass: it maps every source index it holds to
   * a vertex created in this pass (from position `base` on) carrying that
   * source index, and every vertex of the pass is the one its source index
   * maps to.
   */
  predicate Dedup(vmap: map<nat, nat>, vertices: seq<EmittedVertex>, base: nat) {
    && base <= |vertices|
    && (forall k :: k in vmap ==> base <= vmap[k] < |vertices| && vertices[vmap[k]].unit.index == k)
    && (forall o :: base <= o < |vertices| ==>
          vertices[o].unit.index in vmap && vmap[vertices[o].unit.index] == o)
  }

  /** Unit `q` is the first in `units` with its source index. */
  predicate IsFirst(units: seq<VertexUnit>, q: nat)
    requires q < |units|
  {
    forall q' :: 0 <= q' < q ==> units[q'].index != units[q].index
  }

  /** Unit `q` of list `m` is the first unit of all the lists, taken in order, with its source index. */
  predicate FirstInLists(lists: seq<seq<VertexUnit>>, m: nat, q: nat)
    requires m < |lists| && q < |lists[m]|
  {
    && IsFirst(lists[m], q)
    && forall m', q' :: 0 <= m' < m && 0 <= q' < |lists[m']| ==> lists[m'][q'].index != lists[m][q].index
  }

  /** A new vertex for an index not yet in the map keeps the map a dedup map. */
  lemma DedupInsert(vmap: map<nat, nat>, vertices: seq<EmittedVertex>, base: nat, u: VertexUnit, material: nat)
    requires Dedup(vmap, vertices, base) && u.index !in vmap
    ensures Dedup(vmap[u.index := |vertices|], vertices + [EmittedVertex(u, material)], base)
  {
    var vm := vmap[u.index := |vertices|];
    var vs := vertices + [EmittedVertex(u, material)];
    forall o | base <= o < |vs|
      ensures vs[o].unit.index in vm && vm[vs[o].unit.index] == o
    {
      if o < |vertices| {
        assert vs[o] == vertices[o];
      }
    }
  }

  /** The inner loop's invariant after the first `i` units: what `EmitUnits` promises, for `units[..i]`. */
  ghost predicate UnitsProgress(
    units: seq<VertexUnit>, i: nat, material: nat, base: nat,
    vmap0: map<nat, nat>, vertices0: seq<EmittedVertex>,
    vmap: map<nat, nat>, vertices: seq<EmittedVertex>, emitted: seq<nat>)
  {
    && i <= |units|
    && Dedup(vmap, vertices, base)
    && Extends(vertices0, vertices)
    && MapExtends(vmap0, vmap)
    && UnitKeysFrom(units, i, vmap0, vmap)
    && UnitsEmitted(units, i, vmap, emitted)
    && MaterialIs(vertices0, vertices, material)
    && UnitFirstsEmitted(units, i, material, vmap0, vmap, vertices)
  }

  /** Every key of `vmap` was in `vmap0` or is the index of one of the first `i` units. */
  ghost predicate UnitKeysFrom(units: seq<VertexUnit>, i: nat, vmap0: map<nat, nat>, vmap: map<nat, nat>) {
    && i <= |units|
    && forall k :: k in vmap ==> k in vmap0 || exists q :: 0 <= q < i && units[q].index == k
  }

  /** `emitted` holds the saturated vertex position of each of the first `i` units. */
  ghost predicate UnitsEmitted(units: seq<VertexUnit>, i: nat, vmap: map<nat, nat>, emitted: seq<nat>) {
    && i <= |units|
    && |emitted| == i
    && forall q :: 0 <= q < i ==> units[q].index in vmap && emitted[q] == SaturateInt32(vmap[units[q].index])
  }

  /** The vertices after `vertices0` belong to `material`. */
  ghost predicate MaterialIs(vertices0: seq<EmittedVertex>, vertices: seq<EmittedVertex>, material: nat) {
    forall o :: |vertices0| <= o < |vertices| ==> vertices[o].material == material
  }

  /** The first of the first `i` units with a source index new to the pass became that index's vertex. */
  ghost predicate UnitFirstsEmitted(
    units: seq<VertexUnit>, i: nat, material: nat,
    vmap0: map<nat, nat>, vmap: map<nat, nat>, vertices: seq<EmittedVertex>)
  {
    && i <= |units|
    && forall q :: 0 <= q < i && units[q].index !in vmap0 && IsFirst(units, q) ==>
         units[q].index in vmap && vmap[units[q].index] < |vertices| &&
         vertices[vmap[units[q].index]] == EmittedVertex(units[q], material)
  }

  /** The inner loop over one material's unit list. */
  method EmitUnits(units: seq<VertexUnit>, material: nat, base: nat, vmap0: map<nat, nat>, vertices0: seq<EmittedVertex>)
    returns (vmap: map<nat, nat>, vertices: seq<EmittedVertex>, emitted: seq<nat>)
    requires Dedup(vmap0, vertices0, base)
    ensures Dedup(vmap, vertices, base)
    ensures |vertices0| <= |vertices| && forall o :: 0 <= o < |vertices0| ==> vertices[o] == vertices0[o]
    ensures forall k :: k in vmap0 ==> k in vmap && vmap[k] == vmap0[k]
    ensures forall k :: k in vmap ==> k in vmap0 || exists q :: 0 <= q < |units| && units[q].index == k
    ensures |emitted| == |units|
    ensures forall q :: 0 <= q < |units| ==>
      units[q].index in vmap && emitted[q] == SaturateInt32(vmap[units[q].index])
    ensures forall o :: |vertices0| <= o < |vertices| ==> vertices[o].material == material
    ensures forall q :: 0 <= q < |units| && units[q].index !in vmap0 && IsFirst(units, q) ==>
      vertices[vmap[units[q].index]] == EmittedVertex(units[q], material)
    ensures UnitsWalk(units, |units|, material, vmap0, vertices0) == WalkState(vmap, vertices, emitted)
    ensures vertices == vertices0 + NewVertices(units, |units|, material, vmap0.Keys)
  {
    vmap, vertices, emitted := vmap0, vertices0, [];
    var i := 0;
    while i < |units|
      invariant i <= |units|
      invariant UnitsWalk(units, i, material, vmap0, vertices0) == WalkState(vmap, vertices, emitted)
    {
      var u := units[i];
      ghost var before := WalkState(vmap, vertices, emitted);
      if u.index !in vmap {
        vmap := vmap[u.index := |vertices|];
        vertices := vertices + [EmittedVertex(u, material)];
      }
      emitted := emitted + [SaturateInt32(vmap[u.index])];
      i := i + 1;
      UnitsWalkStep(units, i, material, vmap0, vertices0, before.vmap, before.vertices, before.emitted);
    }
    UnitsWalkDone(units, material, base, vmap0, vertices0, vmap, vertices, emitted);
    UnitsWalkOrder(units, |units|, material, vmap0, vertices0);
  }

  /** A state the whole inner walk reaches satisfies the inner loop's invariant. */
  lemma UnitsWalkDone(
    units: seq<VertexUnit>, material: nat, base: nat, vmap0: map<nat, nat>, vertices0: seq<EmittedVertex>,
    vmap: map<nat, nat>, vertices: seq<EmittedVertex>, emitted: seq<nat>)
    requires Dedup(vmap0, vertices0, base)
    requires UnitsWalk(units, |units|, material, vmap0, vertices0) == WalkState(vmap, vertices, emitted)
    ensures UnitsProgress(units, |units|, material, base, vmap0, vertices0, vmap, vertices, emitted)
  {
    UnitsWalkProgress(units, |units|, material, base, vmap0, vertices0);
    ghost var w := UnitsWalk(units, |units|, material, vmap0, vertices0);
    assert w.vmap == vmap && w.vertices == vertices && w.emitted == emitted;
  }

  /** The inner loop's invariant holds of the inner walk after any number of units. */
  lemma {:induction false} UnitsWalkProgress(
    units: seq<VertexUnit>, n: nat, material: nat, base: nat, vmap0: map<nat, nat>, vertices0: seq<EmittedVertex>)
    requires n <= |units| && Dedup(vmap0, vertices0, base)
    ensures var w := UnitsWalk(units, n, material, vmap0, vertices0);
      UnitsProgress(units, n, material, base, vmap0, vertices0, w.vmap, w.vertices, w.emitted)
  {
    if n > 0 {
      UnitsWalkProgress(units, n - 1, material, base, vmap0, vertices0);
      var w := UnitsWalk(units, n - 1, material, vmap0, vertices0);
      UnitsWalkStep(units, n, material, vmap0, vertices0, w.vmap, w.vertices, w.emitted);
      UnitsProgressNext(units, n - 1, material, base, vmap0, vertices0, w.vmap, w.vertices, w.emitted);
    }
  }

  /** One step of the inner walk keeps the inner loop's invariant. */
  lemma UnitsProgressNext(
    units: seq<VertexUnit>, i: nat, material: nat, base: nat, vmap0: map<nat, nat>, vertices0: seq<EmittedVertex>,
    vmap: map<nat, nat>, vertices: seq<EmittedVertex>, emitted: seq<nat>)
    requires i < |units| && UnitsProgress(units, i, material, base, vmap0, vertices0, vmap, vertices, emitted)
    ensures var u := units[i];
      var vm := if u.index in vmap then vmap else vmap[u.index := |vertices|];
      var vs := if u.index in vmap then vertices else vertices + [EmittedVertex(u, material)];
      UnitsProgress(units, i + 1, material, base, vmap0, vertices0, vm, vs, emitted + [SaturateInt32(vm[u.index])])
  {
    var u := units[i];
    var vm := if u.index in vmap then vmap else vmap[u.index := |vertices|];
    var vs := if u.index in vmap then vertices else vertices + [EmittedVertex(u, material)];
    if u.index !in vmap {
      DedupInsert(vmap, vertices, base, u, material);
    }
    UnitsProgressStep(units, i, material, base, vmap0, vertices0, vmap, vertices, emitted, vm, vs);
  }

  /** One unit keeps the inner loop's invariant, whether or not its index is already mapped. */
  lemma UnitsProgressStep(
    units: seq<VertexUnit>, i: nat, material: nat, base: nat,
    vmap0: map<nat, nat>, vertices0: seq<EmittedVertex>,
    vmap: map<nat, nat>, vertices: seq<EmittedVertex>, emitted: seq<nat>,
    vm: map<nat, nat>, vs: seq<EmittedVertex>)
    requires i < |units|
    requires UnitsProgress(units, i, material, base, vmap0, vertices0, vmap, vertices, emitted)
    requires units[i].index in vmap ==> vm == vmap && vs == vertices
    requires units[i].index !in vmap ==>
      && vm == vmap[units[i].index := |vertices|]
      && vs == vertices + [EmittedVertex(units[i], material)]
      && Dedup(vm, vs, base)
    ensures units[i].index in vm
    ensures UnitsProgress(units, i + 1, material, base, vmap0, vertices0, vm, vs, emitted + [SaturateInt32(vm[units[i].index])])
  {
    if units[i].index !in vmap {
      NewUnitStep(units, i, material, base, vmap0, vertices0, vmap, vertices, emitted);
    } else {
      MappedUnitStep(units, i, material, base, vmap0, vertices0, vmap, vertices, emitted);
    }
  }

  /** A unit whose index is new to the pass adds its vertex at the end. */
  lemma NewUnitStep(
    units: seq<VertexUnit>, i: nat, material: nat, base: nat,
    vmap0: map<nat, nat>, vertices0: seq<EmittedVertex>,
    vmap: map<nat, nat>, vertices: seq<EmittedVertex>, emitted: seq<nat>)
    requires i < |units| && units[i].index !in vmap
    requires UnitsProgress(units, i, material, base, vmap0, vertices0, vmap, vertices, emitted)
    requires Dedup(vmap[units[i].index := |vertices|], vertices + [EmittedVertex(units[i], material)], base)
    ensures UnitsProgress(units, i + 1, material, base, vmap0, vertices0,
      vmap[units[i].index := |vertices|], vertices + [EmittedVertex(units[i], material)], emitted + [SaturateInt32(|vertices|)])
  {
    var vm := vmap[units[i].index := |vertices|];
    var vs := vertices + [EmittedVertex(units[i], material)];
    NewUnitFrame(units[i], material, vmap0, vertices0, vmap, vertices);
    NewUnitKeys(units, i, vmap0, vmap, |vertices|);
    UnitsEmittedStep(units, i, vmap, emitted, vm);
    NewUnitFirsts(units, i, material, base, vmap0, vmap, vertices);
  }

  /** A vertex appended for a new index keeps the frame parts of the inner loop's invariant. */
  lemma NewUnitFrame(
    u: VertexUnit, material: nat, vmap0: map<nat, nat>, vertices0: seq<EmittedVertex>,
    vmap: map<nat, nat>, vertices: seq<EmittedVertex>)
    requires u.index !in vmap
    requires Extends(vertices0, vertices) && MapExtends(vmap0, vmap) && MaterialIs(vertices0, vertices, material)
    ensures Extends(vertices0, vertices + [EmittedVertex(u, material)])
    ensures MapExtends(vmap0, vmap[u.index := |vertices|])
    ensures MaterialIs(vertices0, vertices + [EmittedVertex(u, material)], material)
  {
    var vs := vertices + [EmittedVertex(u, material)];
    assert forall o :: 0 <= o < |vertices| ==> vs[o] == vertices[o];
  }

  /** Mapping unit `i`'s index keeps every key of the map traceable to a unit. */
  lemma NewUnitKeys(units: seq<VertexUnit>, i: nat, vmap0: map<nat, nat>, vmap: map<nat, nat>, position: nat)
    requires i < |units|
    requires UnitKeysFrom(units, i, vmap0, vmap)
    ensures UnitKeysFrom(units, i + 1, vmap0, vmap[units[i].index := position])
  {
    forall k | k in vmap[units[i].index := position]
      ensures k in vmap0 || exists q :: 0 <= q < i + 1 && units[q].index == k
    {
      if k == units[i].index {
        assert units[i].index == k;
      }
    }
  }

  /** Unit `i`, once its index is mapped, appends that index's saturated position. */
  lemma UnitsEmittedStep(units: seq<VertexUnit>, i: nat, vmap: map<nat, nat>, emitted: seq<nat>, vm: map<nat, nat>)
    requires i < |units|
    requires UnitsEmitted(units, i, vmap, emitted) && MapExtends(vmap, vm) && units[i].index in vm
    ensures UnitsEmitted(units, i + 1, vm, emitted + [SaturateInt32(vm[units[i].index])])
  {
    var next := emitted + [SaturateInt32(vm[units[i].index])];
    assert forall q :: 0 <= q < i ==> next[q] == emitted[q];
  }

  /** The vertex appended for a new index is the one its first unit names. */
  lemma NewUnitFirsts(
    units: seq<VertexUnit>, i: nat, material: nat, base: nat,
    vmap0: map<nat, nat>, vmap: map<nat, nat>, vertices: seq<EmittedVertex>)
    requires i < |units| && units[i].index !in vmap
    requires Dedup(vmap, vertices, base)
    requires forall q :: 0 <= q < i ==> units[q].index in vmap
    requires UnitFirstsEmitted(units, i, material, vmap0, vmap, vertices)
    ensures UnitFirstsEmitted(units, i + 1, material, vmap0,
      vmap[units[i].index := |vertices|], vertices + [EmittedVertex(units[i], material)])
  {
    var vm := vmap[units[i].index := |vertices|];
    var vs := vertices + [EmittedVertex(units[i], material)];
    forall q | 0 <= q < i + 1 && units[q].index !in vmap0 && IsFirst(units, q)
      ensures units[q].index in vm && vm[units[q].index] < |vs|
      ensures vs[vm[units[q].index]] == EmittedVertex(units[q], material)
    {
      if q < i {
        assert units[q].index in vmap;
        assert units[q].index != units[i].index;
        assert vs[vmap[units[q].index]] == vertices[vmap[units[q].index]];
      }
    }
  }

  /** A unit whose index is already mapped only appends that index's vertex position. */
  lemma MappedUnitStep(
    units: seq<VertexUnit>, i: nat, material: nat, base: nat,
    vmap0: map<nat, nat>, vertices0: seq<EmittedVertex>,
    vmap: map<nat, nat>, vertices: seq<EmittedVertex>, emitted: seq<nat>)
    requires i < |units| && units[i].index in vmap
    requires UnitsProgress(units, i, material, base, vmap0, vertices0, vmap, vertices, emitted)
    ensures UnitsProgress(units, i + 1, material, base, vmap0, vertices0,
      vmap, vertices, emitted + [SaturateInt32(vmap[units[i].index])])
  {
    assert UnitKeysFrom(units, i + 1, vmap0, vmap);
    UnitsEmittedStep(units, i, vmap, emitted, vmap);
    MappedUnitFirsts(units, i, material, vmap0, vmap, vertices);
  }

  /** A unit whose index is already mapped is not the first with its index, unless the pass began with it mapped. */
  lemma MappedUnitFirsts(
    units: seq<VertexUnit>, i: nat, material: nat,
    vmap0: map<nat, nat>, vmap: map<nat, nat>, vertices: seq<EmittedVertex>)
    requires i < |units| && units[i].index in vmap
    requires UnitKeysFrom(units, i, vmap0, vmap)
    requires UnitFirstsEmitted(units, i, material, vmap0, vmap, vertices)
    ensures UnitFirstsEmitted(units, i + 1, material, vmap0, vmap, vertices)
  {
    var u := units[i];
    if u.index !in vmap0 {
      // The index is mapped and was not mapped before the pass, so an earlier unit brought it in.
      var q' :| 0 <= q' < i && units[q'].index == u.index;
      assert units[q'].index == units[i].index;
    }
    assert !(u.index !in vmap0 && IsFirst(units, i));
    forall q | 0 <= q < i + 1 && units[q].index !in vmap0 && IsFirst(units, q)
      ensures units[q].index in vmap && vmap[units[q].index] < |vertices|
      ensures vertices[vmap[units[q].index]] == EmittedVertex(units[q], material)
    {
      assert q != i;
    }
  }

  /** `vertices` starts with `vertices0`. */
  ghost predicate Extends(vertices0: seq<EmittedVertex>, vertices: seq<EmittedVertex>) {
    |vertices0| <= |vertices| && forall o :: 0 <= o < |vertices0| ==> vertices[o] == vertices0[o]
  }

  /** `vmap` keeps every entry of `vmap0`. */
  ghost predicate MapExtends(vmap0: map<nat, nat>, vmap: map<nat, nat>) {
    forall k :: k in vmap0 ==> k in vmap && vmap[k] == vmap0[k]
  }

  /** Every key of `vmap` was in `vmap0` or is the index of a unit of the first `i` lists. */
  ghost predicate KeysFrom(lists: seq<seq<VertexUnit>>, i: nat, vmap0: map<nat, nat>, vmap: map<nat, nat>) {
    && i <= |lists|
    && forall k :: k in vmap ==> (k in vmap0 ||
         exists m, q :: 0 <= m < i && 0 <= q < |lists[m]| && lists[m][q].index == k)
  }

  /** The index of every unit of the first `i` lists is mapped. */
  ghost predicate ListsMapped(lists: seq<seq<VertexUnit>>, i: nat, vmap: map<nat, nat>) {
    && i <= |lists|
    && forall m, q :: 0 <= m < i && 0 <= q < |lists[m]| ==> lists[m][q].index in vmap
  }

  /** `emitted` holds, in order, the saturated vertex position of every unit of the first `i` lists. */
  ghost predicate EmittedFor(lists: seq<seq<VertexUnit>>, i: nat, vmap: map<nat, nat>, emitted: seq<nat>) {
    && i <= |lists|
    && |emitted| == |Concat(lists[..i])|
    && forall p :: 0 <= p < |emitted| ==>
         Concat(lists[..i])[p].index in vmap && emitted[p] == SaturateInt32(vmap[Concat(lists[..i])[p].index])
  }

  /** The vertices after `vertices0` belong to the materials of the first `i` lists. */
  ghost predicate MaterialsIn(vertices0: seq<EmittedVertex>, vertices: seq<EmittedVertex>, materialBase: nat, i: nat) {
    forall o :: |vertices0| <= o < |vertices| ==> materialBase <= vertices[o].material < materialBase + i
  }

  /** The first unit of the first `i` lists with a source index new to the pass became that index's vertex. */
  ghost predicate FirstsEmitted(
    lists: seq<seq<VertexUnit>>, i: nat, materialBase: nat,
    vmap0: map<nat, nat>, vmap: map<nat, nat>, vertices: seq<EmittedVertex>)
    requires ListsMapped(lists, i, vmap)
    requires forall k :: k in vmap ==> vmap[k] < |vertices|
  {
    forall m, q :: 0 <= m < i && 0 <= q < |lists[m]| && lists[m][q].index !in vmap0 && FirstInLists(lists, m, q) ==>
      vertices[vmap[lists[m][q].index]] == EmittedVertex(lists[m][q], materialBase + m)
  }

  /**
   * The outer loop's invariant after the first `i` lists: what `EmitLists`
   * promises, for the lists `lists[..i]`.
   */
  ghost predicate ListsProgress(
    lists: seq<seq<VertexUnit>>, i: nat, materialBase: nat, base: nat,
    vmap0: map<nat, nat>, vertices0: seq<EmittedVertex>,
    vmap: map<nat, nat>, vertices: seq<EmittedVertex>, emitted: seq<nat>)
  {
    && i <= |lists|
    && Dedup(vmap, vertices, base)
    && Extends(vertices0, vertices)
    && MapExtends(vmap0, vmap)
    && KeysFrom(lists, i, vmap0, vmap)
    && ListsMapped(lists, i, vmap)
    && EmittedFor(lists, i, vmap, emitted)
    && MaterialsIn(vertices0, vertices, materialBase, i)
    && FirstsEmitted(lists, i, materialBase, vmap0, vmap, vertices)
  }

  /**
   * The outer loop over the material lists of one pass; list `m` belongs to
   * the material inserted at position `materialBase + m`.
   */
  method EmitLists(lists: seq<seq<VertexUnit>>, materialBase: nat, base: nat, vmap0: map<nat, nat>, vertices0: seq<EmittedVertex>)
    returns (vmap: map<nat, nat>, vertices: seq<EmittedVertex>, emitted: seq<nat>)
    requires Dedup(vmap0, vertices0, base)
    ensures Dedup(vmap, vertices, base)
    ensures |vertices0| <= |vertices| && forall o :: 0 <= o < |vertices0| ==> vertices[o] == vertices0[o]
    ensures forall k :: k in vmap0 ==> k in vmap && vmap[k] == vmap0[k]
    ensures forall k :: k in vmap ==> (k in vmap0 ||
      exists m, q :: 0 <= m < |lists| && 0 <= q < |lists[m]| && lists[m][q].index == k)
    ensures forall m, q :: 0 <= m < |lists| && 0 <= q < |lists[m]| ==> lists[m][q].index in vmap
    ensures |emitted| == |Concat(lists)|
    ensures forall p :: 0 <= p < |Concat(lists)| ==>
      Concat(lists)[p].index in vmap && emitted[p] == SaturateInt32(vmap[Concat(lists)[p].index])
    ensures forall o :: |vertices0| <= o < |vertices| ==> materialBase <= vertices[o].material < materialBase + |lists|
    ensures forall m, q :: 0 <= m < |lists| && 0 <= q < |lists[m]| && lists[m][q].index !in vmap0 && FirstInLists(lists, m, q) ==>
      vertices[vmap[lists[m][q].index]] == EmittedVertex(lists[m][q], materialBase + m)
    ensures ListsWalk(lists, |lists|, materialBase, vmap0, vertices0) == WalkState(vmap, vertices, emitted)
    ensures vertices == vertices0 + PassVertices(lists, |lists|, materialBase, vmap0.Keys)
  {
    vmap, vertices, emitted := vmap0, vertices0, [];
    var i := 0;
    while i < |lists|
      invariant i <= |lists| && Dedup(vmap, vertices, base)
      invariant ListsWalk(lists, i, materialBase, vmap0, vertices0) == WalkState(vmap, vertices, emitted)
    {
      var vm, vs, more := EmitUnits(lists[i], materialBase + i, base, vmap, vertices);
      ghost var before := WalkState(vmap, vertices, emitted);
      vmap, vertices, emitted := vm, vs, emitted + more;
      i := i + 1;
      ListsWalkStep(lists, i, materialBase, vmap0, vertices0, before.vmap, before.vertices, before.emitted, vm, vs, more);
    }
    ListsWalkDone(lists, materialBase, base, vmap0, vertices0, vmap, vertices, emitted);
    ListsWalkOrder(lists, |lists|, materialBase, vmap0, vertices0);
    assert lists[..|lists|] == lists;
  }

  /** A state the whole outer walk reaches satisfies the outer loop's invariant. */
  lemma ListsWalkDone(
    lists: seq<seq<VertexUnit>>, materialBase: nat, base: nat, vmap0: map<nat, nat>, vertices0: seq<EmittedVertex>,
    vmap: map<nat, nat>, vertices: seq<EmittedVertex>, emitted: seq<nat>)
    requires Dedup(vmap0, vertices0, base)
    requires ListsWalk(lists, |lists|, materialBase, vmap0, vertices0) == WalkState(vmap, vertices, emitted)
    ensures ListsProgress(lists, |lists|, materialBase, base, vmap0, vertices0, vmap, vertices, emitted)
  {
    ListsWalkProgress(lists, |lists|, materialBase, base, vmap0, vertices0);
    ghost var w := ListsWalk(lists, |lists|, materialBase, vmap0, vertices0);
    assert w.vmap == vmap && w.vertices == vertices && w.emitted == emitted;
  }

  /** The outer loop's invariant holds of the outer walk after any number of lists. */
  lemma {:induction false} ListsWalkProgress(
    lists: seq<seq<VertexUnit>>, n: nat, materialBase: nat, base: nat, vmap0: map<nat, nat>, vertices0: seq<EmittedVertex>)
    requires n <= |lists| && Dedup(vmap0, vertices0, base)
    ensures var w := ListsWalk(lists, n, materialBase, vmap0, vertices0);
      ListsProgress(lists, n, materialBase, base, vmap0, vertices0, w.vmap, w.vertices, w.emitted)
  {
    if n == 0 {
      assert lists[..0] == [];
    } else {
      ListsWalkProgress(lists, n - 1, materialBase, base, vmap0, vertices0);
      var w := ListsWalk(lists, n - 1, materialBase, vmap0, vertices0);
      var u := UnitsWalk(lists[n - 1], |lists[n - 1]|, materialBase + (n - 1), w.vmap, w.vertices);
      ListsProgressNext(lists, n, materialBase, base, vmap0, vertices0, w.vmap, w.vertices, w.emitted);
      ListsWalkStep(lists, n, materialBase, vmap0, vertices0, w.vmap, w.vertices, w.emitted, u.vmap, u.vertices, u.emitted);
    }
  }

  /** One run of the inner walk, on list `n - 1`, keeps the outer loop's invariant. */
  lemma ListsProgressNext(
    lists: seq<seq<VertexUnit>>, n: nat, materialBase: nat, base: nat, vmap0: map<nat, nat>, vertices0: seq<EmittedVertex>,
    vmap: map<nat, nat>, vertices: seq<EmittedVertex>, emitted: seq<nat>)
    requires 0 < n <= |lists| && ListsProgress(lists, n - 1, materialBase, base, vmap0, vertices0, vmap, vertices, emitted)
    ensures var u := UnitsWalk(lists[n - 1], |lists[n - 1]|, materialBase + (n - 1), vmap, vertices);
      ListsProgress(lists, n, materialBase, base, vmap0, vertices0, u.vmap, u.vertices, emitted + u.emitted)
  {
    UnitsWalkProgress(lists[n - 1], |lists[n - 1]|, materialBase + (n - 1), base, vmap, vertices);
    var u := UnitsWalk(lists[n - 1], |lists[n - 1]|, materialBase + (n - 1), vmap, vertices);
    ListsProgressStep(lists, n, materialBase, base, vmap0, vertices0, vmap, vertices, emitted, u.vmap, u.vertices, u.emitted);
  }

  /** One run of the inner loop, on list `n - 1`, extends the outer loop's invariant to `n` lists. */
  lemma ListsProgressStep(
    lists: seq<seq<VertexUnit>>, n: nat, materialBase: nat, base: nat,
    vmap0: map<nat, nat>, vertices0: seq<EmittedVertex>,
    vmap: map<nat, nat>, vertices: seq<EmittedVertex>, emitted: seq<nat>,
    vm: map<nat, nat>, vs: seq<EmittedVertex>, more: seq<nat>)
    requires 0 < n <= |lists|
    requires ListsProgress(lists, n - 1, materialBase, base, vmap0, vertices0, vmap, vertices, emitted)
    requires UnitsProgress(lists[n - 1], |lists[n - 1]|, materialBase + (n - 1), base, vmap, vertices, vm, vs, more)
    ensures ListsProgress(lists, n, materialBase, base, vmap0, vertices0, vm, vs, emitted + more)
  {
    var i := n - 1;
    assert Extends(vertices, vs) && MapExtends(vmap, vm);
    ListsFrameStep(lists, i, materialBase, vmap0, vertices0, vmap, vertices, vm, vs);
    KeysStep(lists, i, vmap0, vmap, vm);
    EmittedStep(lists, i, vmap, vm, emitted, more);
    EmitListsStep(lists, i, materialBase, base, vmap0, vmap, vertices, vm, vs);
  }

  /** The parts of the outer loop's invariant that one list extends by transitivity. */
  lemma ListsFrameStep(
    lists: seq<seq<VertexUnit>>, i: nat, materialBase: nat,
    vmap0: map<nat, nat>, vertices0: seq<EmittedVertex>,
    vmap: map<nat, nat>, vertices: seq<EmittedVertex>,
    vm: map<nat, nat>, vs: seq<EmittedVertex>)
    requires i < |lists|
    requires Extends(vertices0, vertices) && MapExtends(vmap0, vmap)
    requires ListsMapped(lists, i, vmap) && MaterialsIn(vertices0, vertices, materialBase, i)
    requires Extends(vertices, vs) && MapExtends(vmap, vm)
    requires forall q :: 0 <= q < |lists[i]| ==> lists[i][q].index in vm
    requires forall o :: |vertices| <= o < |vs| ==> vs[o].material == materialBase + i
    ensures Extends(vertices0, vs) && MapExtends(vmap0, vm)
    ensures ListsMapped(lists, i + 1, vm) && MaterialsIn(vertices0, vs, materialBase, i + 1)
  {
  }

  /** The indices of list `i` extend the indices of the lists before it. */
  lemma EmittedStep(lists: seq<seq<VertexUnit>>, i: nat, vmap: map<nat, nat>, vm: map<nat, nat>, emitted: seq<nat>, more: seq<nat>)
    requires i < |lists|
    requires MapExtends(vmap, vm)
    requires EmittedFor(lists, i, vmap, emitted)
    requires |more| == |lists[i]|
    requires forall q :: 0 <= q < |lists[i]| ==>
      lists[i][q].index in vm && more[q] == SaturateInt32(vm[lists[i][q].index])
    ensures EmittedFor(lists, i + 1, vm, emitted + more)
  {
    assert lists[..i + 1][..i] == lists[..i];
    ghost var before := Concat(lists[..i]);
    assert Concat(lists[..i + 1]) == before + lists[i];
    forall p | 0 <= p < |emitted + more|
      ensures Concat(lists[..i + 1])[p].index in vm
      ensures (emitted + more)[p] == SaturateInt32(vm[Concat(lists[..i + 1])[p].index])
    {
      if p < |emitted| {
        assert Concat(lists[..i + 1])[p] == before[p];
      } else {
        assert Concat(lists[..i + 1])[p] == lists[i][p - |emitted|];
      }
    }
  }

  /** The keys the inner loop adds for list `i` come from list `i`. */
  lemma KeysStep(lists: seq<seq<VertexUnit>>, i: nat, vmap0: map<nat, nat>, vmap: map<nat, nat>, vm: map<nat, nat>)
    requires i < |lists|
    requires KeysFrom(lists, i, vmap0, vmap)
    requires forall k :: k in vm ==> k in vmap || exists q :: 0 <= q < |lists[i]| && lists[i][q].index == k
    ensures KeysFrom(lists, i + 1, vmap0, vm)
  {
    forall k | k in vm
      ensures k in vmap0 || exists m, q :: 0 <= m < i + 1 && 0 <= q < |lists[m]| && lists[m][q].index == k
    {
      if k !in vmap {
        var q :| 0 <= q < |lists[i]| && lists[i][q].index == k;
        assert 0 <= i < i + 1 && lists[i][q].index == k;
      }
    }
  }

  /** What one run of the inner loop adds to the outer loop's invariant: the vertices created for list `i`. */
  lemma EmitListsStep(
    lists: seq<seq<VertexUnit>>, i: nat, materialBase: nat, base: nat,
    vmap0: map<nat, nat>, vmap: map<nat, nat>, vertices: seq<EmittedVertex>,
    vm: map<nat, nat>, vs: seq<EmittedVertex>)
    requires i < |lists|
    requires Dedup(vmap, vertices, base) && Dedup(vm, vs, base)
    requires KeysFrom(lists, i, vmap0, vmap) && ListsMapped(lists, i, vmap)
    requires Extends(vertices, vs) && MapExtends(vmap, vm)
    requires ListsMapped(lists, i + 1, vm)
    requires forall q :: 0 <= q < |lists[i]| && lists[i][q].index !in vmap && IsFirst(lists[i], q) ==>
      vs[vm[lists[i][q].index]] == EmittedVertex(lists[i][q], materialBase + i)
    requires FirstsEmitted(lists, i, materialBase, vmap0, vmap, vertices)
    ensures FirstsEmitted(lists, i + 1, materialBase, vmap0, vm, vs)
  {
    forall m, q | 0 <= m < i + 1 && 0 <= q < |lists[m]| && lists[m][q].index !in vmap0 && FirstInLists(lists, m, q)
      ensures vs[vm[lists[m][q].index]] == EmittedVertex(lists[m][q], materialBase + m)
    {
      var k := lists[m][q].index;
      if m < i {
        assert k in vmap;
        assert vs[vmap[k]] == vertices[vmap[k]];
      }
    }
  }

  /**
   * What one pass with a fresh vertex map writes: the vertices from `base` on,
   * which are PassVertices in that order, and the indices of the units of
   * `lists` in order. Each index names a vertex
   * of the pass whose source index is the unit's (while the positions fit the
   * saturating conversion), the vertices of the pass have distinct source
   * indices that all occur in the lists, and the first unit of each source index
   * became its vertex, attached to the material of the list it came from.
   */
  ghost predicate PassOutput(lists: seq<seq<VertexUnit>>, materialBase: nat, vertices: seq<EmittedVertex>, base: nat, indices: seq<nat>) {
    && base <= |vertices|
    && vertices[base..] == PassVertices(lists, |lists|, materialBase, {})
    && |indices| == |Concat(lists)|
    && (forall p :: 0 <= p < |indices| ==> indices[p] < |vertices|)
    && (|vertices| <= Int32Max + 1 ==> forall p :: 0 <= p < |indices| ==>
          base <= indices[p] && vertices[indices[p]].unit.index == Concat(lists)[p].index)
    && (forall o1, o2 :: base <= o1 < o2 < |vertices| ==> vertices[o1].unit.index != vertices[o2].unit.index)
    && (forall o :: base <= o < |vertices| ==>
          && materialBase <= vertices[o].material < materialBase + |lists|
          && exists m, q :: 0 <= m < |lists| && 0 <= q < |lists[m]| && lists[m][q].index == vertices[o].unit.index)
    && (forall m, q :: 0 <= m < |lists| && 0 <= q < |lists[m]| && FirstInLists(lists, m, q) ==>
          exists o :: base <= o < |vertices| && vertices[o] == EmittedVertex(lists[m][q], materialBase + m))
  }

  /** One emission pass: a fresh vertex map, new vertices appended after `vertices0`. */
  method EmitPass(lists: seq<seq<VertexUnit>>, materialBase: nat, vertices0: seq<EmittedVertex>)
    returns (vertices: seq<EmittedVertex>, indices: seq<nat>)
    ensures |vertices0| <= |vertices| && vertices[..|vertices0|] == vertices0
    ensures PassOutput(lists, materialBase, vertices, |vertices0|, indices)
  {
    var vmap;
    var empty: map<nat, nat> := map[];
    assert empty.Keys == {};
    vmap, vertices, indices := EmitLists(lists, materialBase, |vertices0|, empty, vertices0);
    assert vertices[..|vertices0|] == vertices0 && vertices[|vertices0|..] == PassVertices(lists, |lists|, materialBase, {});
    forall o1, o2 | |vertices0| <= o1 < o2 < |vertices|
      ensures vertices[o1].unit.index != vertices[o2].unit.index
    {
      assert vmap[vertices[o1].unit.index] == o1;
    }
    forall m, q | 0 <= m < |lists| && 0 <= q < |lists[m]| && FirstInLists(lists, m, q)
      ensures exists o :: |vertices0| <= o < |vertices| && vertices[o] == EmittedVertex(lists[m][q], materialBase + m)
    {
      var o := vmap[lists[m][q].index];
      assert vertices[o] == EmittedVertex(lists[m][q], materialBase + m);
    }
    if |vertices| <= Int32Max + 1 {
      forall p | 0 <= p < |indices|
        ensures |vertices0| <= indices[p] && vertices[indices[p]].unit.index == Concat(lists)[p].index
      {
        assert vmap[Concat(lists)[p].index] < |vertices|;
      }
    }
    forall o | |vertices0| <= o < |vertices|
      ensures exists m, q :: 0 <= m < |lists| && 0 <= q < |lists[m]| && lists[m][q].index == vertices[o].unit.index
    {
      assert vertices[o].unit.index in vmap;
    }
  }

  /** The materials' vertex-index counts add up to the length of the index buffer of their lists. */
  lemma {:induction false} CountsMatchIndices(ms: seq<EmittedMaterial>, lists: seq<seq<VertexUnit>>)
    requires |ms| == |lists|
    requires forall i :: 0 <= i < |ms| ==> ms[i].numVertexIndices == |lists[i]|
    ensures TotalVertexIndices(ms) == |Concat(lists)|
    decreases |ms|
  {
    if |ms| > 0 {
      CountsMatchIndices(ms[..|ms| - 1], lists[..|lists| - 1]);
    }
  }

  /** The counts of two runs of materials add up. */
  lemma {:induction false} TotalAppend(a: seq<EmittedMaterial>, b: seq<EmittedMaterial>)
    ensures TotalVertexIndices(a + b) == TotalVertexIndices(a) + TotalVertexIndices(b)
    decreases |b|
  {
    if |b| > 0 {
      assert (a + b)[..|a + b| - 1] == a + b[..|b| - 1];
      TotalAppend(a, b[..|b| - 1]);
    } else {
      assert a + b == a;
    }
  }
}
