/**
 The incident-component relation: how an update builder turns the recorded edits of its
 mutation into clear and add specs, and what those do to the relation table.

 Store contract: clear specs are applied before add specs, a clear spec without target
 nodes deletes every row of the updated entity, and adding a row that exists changes
 nothing.
 */
module Relation {
  import opened Mutations

  /** Rows (incident_id, component_id). */
  type Rel = set<(int, int)>

  /** Inverse is set when the component side does the update. */
  datatype EdgeSpec = EdgeSpec(inverse: bool, nodes: seq<int>)

  /** The row that links the updated entity to node k. */
  function Link(inverse: bool, id: int, k: int): (int, int) {
    if inverse then (k, id) else (id, k)
  }

  function Own(inverse: bool, row: (int, int)): int {
    if inverse then row.1 else row.0
  }

  function Other(inverse: bool, row: (int, int)): int {
    if inverse then row.0 else row.1
  }

  /** The ids related to the entity. */
  ghost function Neighbours(rel: Rel, inverse: bool, id: int): set<int> {
    set row | row in rel && Own(inverse, row) == id :: Other(inverse, row)
  }

  // ---- Applying a spec ----

  function ApplyClear(rel: Rel, id: int, e: EdgeSpec): Rel {
    set row | row in rel && !(Own(e.inverse, row) == id && (e.nodes == [] || Other(e.inverse, row) in e.nodes))
  }

  function ApplyAdd(rel: Rel, id: int, e: EdgeSpec): Rel {
    rel + set k | k in e.nodes :: Link(e.inverse, id, k)
  }

  function ApplyClears(rel: Rel, id: int, es: seq<EdgeSpec>): Rel
    decreases |es|
  {
    if es == [] then rel else ApplyClears(ApplyClear(rel, id, es[0]), id, es[1..])
  }

  function ApplyAdds(rel: Rel, id: int, es: seq<EdgeSpec>): Rel
    decreases |es|
  {
    if es == [] then rel else ApplyAdds(ApplyAdd(rel, id, es[0]), id, es[1..])
  }

  /** sqlgraph.UpdateNode on the relation. */
  function ApplyUpdate(rel: Rel, id: int, clears: seq<EdgeSpec>, adds: seq<EdgeSpec>): Rel {
    ApplyAdds(ApplyClears(rel, id, clears), id, adds)
  }

  /** sqlgraph.UpdateNodes: the same specs for every matched entity. */
  function ApplyUpdates(rel: Rel, ids: seq<int>, clears: seq<EdgeSpec>, adds: seq<EdgeSpec>): Rel
    decreases |ids|
  {
    if ids == [] then rel else ApplyUpdates(ApplyUpdate(rel, ids[0], clears, adds), ids[1..], clears, adds)
  }

  // ---- Building a spec ----

  /** ComponentsIDs and its kin: the keys of a Go map, in whatever order it gives them. */
  method Keys<T(==)>(ids: set<T>) returns (keys: seq<T>)
    ensures Ids(keys) == ids
    ensures |keys| == |ids|
  {
    keys := [];
    var rest := ids;
    while rest != {}
      invariant rest <= ids && Ids(keys) == ids - rest
      invariant |keys| + |rest| == |ids|
      decreases rest
    {
      var k :| k in rest;
      ghost var before := keys;
      keys := keys + [k];
      rest := rest - {k};
      assert Ids(keys) == Ids(before) + {k};
    }
  }

  /** The relation after an update, row by row. */
  ghost function Edited(rel: Rel, inverse: bool, id: int, e: Edges): Rel {
    (set row | row in rel && (Own(inverse, row) != id || Other(inverse, row) in Target(e, Neighbours(rel, inverse, id))))
    + (set k | k in e.added :: Link(inverse, id, k))
  }

  lemma EditedRows(rel: Rel, inverse: bool, id: int, e: Edges)
    ensures forall row :: row in Edited(rel, inverse, id, e) <==>
              if Own(inverse, row) == id
              then Other(inverse, row) in e.added || (row in rel && !e.cleared && Other(inverse, row) !in e.removed)
              else row in rel
  {
    forall row | Own(inverse, row) == id && Other(inverse, row) in e.added
      ensures row in Edited(rel, inverse, id, e)
    {
      assert row == Link(inverse, id, Other(inverse, row));
    }
    forall row | row in rel && Own(inverse, row) == id
      ensures Other(inverse, row) in Neighbours(rel, inverse, id)
    {
    }
  }

  lemma SpecsEdit(rel: Rel, inverse: bool, id: int, e: Edges,
                  clears: seq<EdgeSpec>, adds: seq<EdgeSpec>, removed: seq<int>, added: seq<int>)
    requires Ids(removed) == e.removed && Ids(added) == e.added
    requires clears == if e.cleared then [EdgeSpec(inverse, [])]
                       else if removed == [] then [] else [EdgeSpec(inverse, removed)]
    requires adds == if added == [] then [] else [EdgeSpec(inverse, added)]
    ensures ApplyUpdate(rel, id, clears, adds) == Edited(rel, inverse, id, e)
  {
    var mid := ApplyClears(rel, id, clears);
    assert forall row :: row in mid <==>
      row in rel && !(Own(inverse, row) == id && (e.cleared || Other(inverse, row) in e.removed)) by {
      if clears != [] {
        assert clears[1..] == [];
        assert mid == ApplyClears(ApplyClear(rel, id, clears[0]), id, []);
      }
      assert forall k :: k in removed <==> k in Ids(removed);
    }
    var end := ApplyAdds(mid, id, adds);
    assert forall row :: row in end <==> row in mid || (Own(inverse, row) == id && Other(inverse, row) in e.added) by {
      assert forall k :: k in added <==> k in Ids(added);
      if adds != [] {
        assert adds[1..] == [];
        assert end == ApplyAdds(ApplyAdd(mid, id, adds[0]), id, []);
      }
      forall row | Own(inverse, row) == id && Other(inverse, row) in e.added
        ensures row in end
      {
        assert row == Link(inverse, id, Other(inverse, row));
      }
    }
    EditedRows(rel, inverse, id, e);
  }

  /** The edge part of sqlSave, with its guard that keeps an empty clear spec out. */
  method EdgeSpecs(e: Edges, inverse: bool) returns (clears: seq<EdgeSpec>, adds: seq<EdgeSpec>)
    ensures forall rel, id :: ApplyUpdate(rel, id, clears, adds) == Edited(rel, inverse, id, e)
    ensures |clears| <= 1 && |adds| <= 1
  {
    clears, adds := [], [];
    if e.cleared {
      clears := clears + [EdgeSpec(inverse, [])];
    }
    var removed := Keys(e.removed);
    if |removed| > 0 && !e.cleared {
      clears := clears + [EdgeSpec(inverse, removed)];
    }
    var added := Keys(e.added);
    if |added| > 0 {
      adds := adds + [EdgeSpec(inverse, added)];
    }
    forall rel, id
      ensures ApplyUpdate(rel, id, clears, adds) == Edited(rel, inverse, id, e)
    {
      SpecsEdit(rel, inverse, id, e, clears, adds, removed, added);
    }
  }

  // ---- Main results ----

  lemma NeighboursEdited(rel: Rel, inverse: bool, id: int, e: Edges)
    ensures Neighbours(Edited(rel, inverse, id, e), inverse, id) == Target(e, Neighbours(rel, inverse, id))
    ensures forall other :: other != id ==>
              Neighbours(Edited(rel, inverse, id, e), inverse, other) == Neighbours(rel, inverse, other)
  {
    EditedRows(rel, inverse, id, e);
    var after := Edited(rel, inverse, id, e);
    forall k
      ensures k in Neighbours(after, inverse, id) <==> k in Target(e, Neighbours(rel, inverse, id))
    {
      NeighbourIsLink(after, inverse, id, k);
      NeighbourIsLink(rel, inverse, id, k);
    }
    forall other | other != id
      ensures Neighbours(after, inverse, other) == Neighbours(rel, inverse, other)
    {
      forall k
        ensures k in Neighbours(after, inverse, other) <==> k in Neighbours(rel, inverse, other)
      {
        NeighbourIsLink(after, inverse, other, k);
        NeighbourIsLink(rel, inverse, other, k);
      }
    }
  }

  /** After any sequence of calls on the builder, the stored set is that of the calls in
      order, and other entities keep their rows. */
  lemma UpdateMeansCallsInOrder(rel: Rel, inverse: bool, id: int, ops: seq<EdgeOp>)
    ensures Neighbours(Edited(rel, inverse, id, RecordAll(ops)), inverse, id)
         == InOrder(ops, if ClearedSinceReset(ops) then {} else Neighbours(rel, inverse, id))
    ensures forall other :: other != id ==>
              Neighbours(Edited(rel, inverse, id, RecordAll(ops)), inverse, other) == Neighbours(rel, inverse, other)
  {
    var e := RecordAll(ops);
    EditedRows(rel, inverse, id, e);
    RecordedEdgesMeanCallsInOrder(ops, Neighbours(rel, inverse, id));
    NeighboursEdited(rel, inverse, id, e);
  }

  lemma NeighbourIsLink(rel: Rel, inverse: bool, id: int, k: int)
    ensures k in Neighbours(rel, inverse, id) <==> Link(inverse, id, k) in rel
  {
    var row := Link(inverse, id, k);
    assert Own(inverse, row) == id && Other(inverse, row) == k;
  }

  /** The part of an edit of incident i that concerns component k, seen from the component. */
  function Mirror(e: Edges, i: int, k: int): Edges {
    Edges(if k in e.added then {i} else {}, if e.cleared || k in e.removed then {i} else {}, false)
  }

  /** One component-side update per component of the list. */
  ghost function FromComponents(rel: Rel, i: int, e: Edges, ks: seq<int>): Rel
    decreases |ks|
  {
    if ks == [] then rel
    else FromComponents(Edited(rel, true, ks[0], Mirror(e, i, ks[0])), i, e, ks[1..])
  }

  lemma {:induction false} FromComponentsRows(rel: Rel, i: int, e: Edges, ks: seq<int>)
    ensures forall row :: row in FromComponents(rel, i, e, ks) <==>
              if row.0 == i && row.1 in ks
              then row.1 in e.added || (row in rel && !e.cleared && row.1 !in e.removed)
              else row in rel
    decreases |ks|
  {
    if ks != [] {
      var k := ks[0];
      var next := Edited(rel, true, k, Mirror(e, i, k));
      EditedRows(rel, true, k, Mirror(e, i, k));
      FromComponentsRows(next, i, e, ks[1..]);
      assert forall x :: x in ks <==> x == k || x in ks[1..];
      assert forall row: (int, int) :: Own(true, row) == row.1 && Other(true, row) == row.0;
    }
  }

  /** Editing an incident's components is editing each touched component's incidents, in any
      order: both sides write the same rows. */
  lemma BothSidesWriteTheSame(rel: Rel, i: int, e: Edges, ks: seq<int>)
    requires forall k :: k in e.added + e.removed ==> k in ks
    requires e.cleared ==> forall k :: k in Neighbours(rel, false, i) ==> k in ks
    ensures FromComponents(rel, i, e, ks) == Edited(rel, false, i, e)
  {
    FromComponentsRows(rel, i, e, ks);
    EditedRows(rel, false, i, e);
    forall row
      ensures row in FromComponents(rel, i, e, ks) <==> row in Edited(rel, false, i, e)
    {
      assert Own(false, row) == row.0 && Other(false, row) == row.1;
      NeighbourIsLink(rel, false, i, row.1);
    }
  }

  /** A bulk update edits each matched entity as a single update would, and no other. */
  lemma {:induction false} UpdatesEditEachMatch(
    rel: Rel, inverse: bool, ids: seq<int>, e: Edges, clears: seq<EdgeSpec>, adds: seq<EdgeSpec>, id: int)
    requires forall r, x :: ApplyUpdate(r, x, clears, adds) == Edited(r, inverse, x, e)
    ensures Neighbours(ApplyUpdates(rel, ids, clears, adds), inverse, id)
         == if id in ids then Target(e, Neighbours(rel, inverse, id)) else Neighbours(rel, inverse, id)
    decreases |ids|
  {
    if ids != [] {
      var next := ApplyUpdate(rel, ids[0], clears, adds);
      assert next == Edited(rel, inverse, ids[0], e);
      NeighboursEdited(rel, inverse, ids[0], e);
      UpdatesEditEachMatch(next, inverse, ids[1..], e, clears, adds, id);
    }
  }
}
