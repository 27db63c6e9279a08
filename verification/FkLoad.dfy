/**
 Eager loading over a foreign key, in both directions: the notifications of incidents, and
 the incident of notifications.
 */
module FkLoad {
  import opened Wrappers
  import opened EagerLoad

  // ---- One to many ----

  /** The neighbours that carry the key, in order. */
  ghost function WithKey<N>(fk: N -> int, ns: seq<N>, key: int): seq<N> {
    if ns == [] then []
    else WithKey(fk, ns[..|ns| - 1], key) + if fk(ns[|ns| - 1]) == key then [ns[|ns| - 1]] else []
  }

  ghost predicate IndexOf<N>(nodes: seq<Parent<N>>, nodeids: map<int, Parent<N>>) {
    && (forall p :: 0 <= p < |nodes| ==> nodes[p].id in nodeids)
    && (forall x :: x in nodeids ==> nodeids[x].id == x && nodeids[x] in nodes)
  }

  /** What parent q is due of the neighbours ns. */
  ghost function Due<N>(fk: N -> int, nodeids: map<int, Parent<N>>, q: Parent<N>, ns: seq<N>): seq<N> {
    if q.id in nodeids && nodeids[q.id] == q then WithKey(fk, ns, q.id) else []
  }

  lemma DueOneMore<N>(fk: N -> int, nodeids: map<int, Parent<N>>, q: Parent<N>, ns: seq<N>, n: N, key: int)
    requires key == fk(n) && key in nodeids && nodeids[key].id == key
    ensures Due(fk, nodeids, q, ns + [n]) == Due(fk, nodeids, q, ns) + if q == nodeids[key] then [n] else []
  {
    assert (ns + [n])[..|ns|] == ns;
  }

  /** assign(node, n): what every parent is due grows by n for the one with n's key. */
  method AssignOne<N>(
    nodes: seq<Parent<N>>, nodeids: map<int, Parent<N>>, ghost ns: seq<N>, n: N, key: int, ghost fk: N -> int)
    requires IndexOf(nodes, nodeids) && key == fk(n) && key in nodeids
    requires forall p :: 0 <= p < |nodes| ==> nodes[p].edges == Due(fk, nodeids, nodes[p], ns)
    modifies nodes
    ensures forall p :: 0 <= p < |nodes| ==> nodes[p].edges == Due(fk, nodeids, nodes[p], ns + [n])
  {
    var node := nodeids[key];
    node.edges := node.edges + [n];
    forall p | 0 <= p < |nodes|
      ensures nodes[p].edges == Due(fk, nodeids, nodes[p], ns + [n])
    {
      DueOneMore(fk, nodeids, nodes[p], ns, n, key);
    }
  }

  /** The assigning loop over the neighbours. */
  method AssignByKey<N>(nodes: seq<Parent<N>>, nodeids: map<int, Parent<N>>, ns: seq<N>, fk: N -> int) returns (ok: bool)
    requires IndexOf(nodes, nodeids)
    requires forall p :: 0 <= p < |nodes| ==> nodes[p].edges == []
    modifies nodes
    ensures ok <==> forall j :: 0 <= j < |ns| ==> fk(ns[j]) in nodeids
    ensures ok ==> forall p :: 0 <= p < |nodes| ==> nodes[p].edges == Due(fk, nodeids, nodes[p], ns)
  {
    for j := 0 to |ns|
      invariant forall i :: 0 <= i < j ==> fk(ns[i]) in nodeids
      invariant forall p :: 0 <= p < |nodes| ==> nodes[p].edges == Due(fk, nodeids, nodes[p], ns[..j])
    {
      var key: int := fk(ns[j]);
      if key !in nodeids {
        return false;
      }
      AssignOne(nodes, nodeids, ns[..j], ns[j], key, fk);
      assert ns[..j + 1] == ns[..j] + [ns[j]];
    }
    assert ns[..|ns|] == ns;
    ok := true;
  }

  ghost predicate HasId<N>(nodes: seq<Parent<N>>, x: int) {
    exists p :: 0 <= p < |nodes| && nodes[p].id == x
  }

  /** loadNotifications and loadAttributes: an unknown key is an error; otherwise each parent
      gets the neighbours with its id, in order. Of parents with the same id only the last
      one gets them. */
  method LoadOneToMany<N>(nodes: seq<Parent<N>>, ns: seq<N>, fk: N -> int) returns (ok: bool)
    requires DistinctObjects(nodes)
    modifies nodes
    ensures ok <==> forall j :: 0 <= j < |ns| ==> HasId(nodes, fk(ns[j]))
    ensures ok ==> forall p :: 0 <= p < |nodes| ==>
              nodes[p].edges == if LastWithId(nodes, p) then WithKey(fk, ns, nodes[p].id) else []
  {
    var nodeids := IndexParents(nodes);
    forall x: int
      ensures x in nodeids <==> HasId(nodes, x)
    {
      if x in nodeids {
        assert nodeids[x] in nodes;
      }
    }
    ok := AssignByKey(nodes, nodeids, ns, fk);
  }

  /** The neighbours whose key is one of `keys`. */
  ghost function Among<N>(fk: N -> int, ns: seq<N>, keys: seq<int>): seq<N> {
    if ns == [] then []
    else Among(fk, ns[..|ns| - 1], keys) + if fk(ns[|ns| - 1]) in keys then [ns[|ns| - 1]] else []
  }

  ghost function AllEdges<N>(fk: N -> int, ns: seq<N>, keys: seq<int>): seq<N> {
    if keys == [] then [] else WithKey(fk, ns, keys[0]) + AllEdges(fk, ns, keys[1..])
  }

  lemma {:induction false} SplitKeys<N>(fk: N -> int, ns: seq<N>, keys: seq<int>)
    requires keys != [] && keys[0] !in keys[1..]
    ensures multiset(Among(fk, ns, keys)) == multiset(WithKey(fk, ns, keys[0])) + multiset(Among(fk, ns, keys[1..]))
  {
    if ns != [] {
      SplitKeys(fk, ns[..|ns| - 1], keys);
      var key: int := fk(ns[|ns| - 1]);
      assert key in keys <==> key == keys[0] || key in keys[1..];
    }
  }

  lemma {:induction false} EdgesAreAmong<N>(fk: N -> int, ns: seq<N>, keys: seq<int>)
    requires forall i, j :: 0 <= i < j < |keys| ==> keys[i] != keys[j]
    ensures multiset(AllEdges(fk, ns, keys)) == multiset(Among(fk, ns, keys))
    decreases |keys|
  {
    if keys == [] {
      NoneAmongNone(fk, ns);
    } else {
      SplitKeys(fk, ns, keys);
      EdgesAreAmong(fk, ns, keys[1..]);
    }
  }

  lemma {:induction false} NoneAmongNone<N>(fk: N -> int, ns: seq<N>)
    ensures Among(fk, ns, []) == []
  {
    if ns != [] {
      NoneAmongNone(fk, ns[..|ns| - 1]);
    }
  }

  lemma {:induction false} AllAmong<N>(fk: N -> int, ns: seq<N>, keys: seq<int>)
    requires forall j :: 0 <= j < |ns| ==> fk(ns[j]) in keys
    ensures Among(fk, ns, keys) == ns
  {
    if ns != [] {
      AllAmong(fk, ns[..|ns| - 1], keys);
      assert ns == ns[..|ns| - 1] + [ns[|ns| - 1]];
    }
  }

  /** Nothing is lost or doubled: with distinct parent ids and no unknown key, the parents'
      edges together are the neighbours, and their lengths add up. */
  lemma EdgesPartitionNeighbours<N>(fk: N -> int, ns: seq<N>, keys: seq<int>)
    requires forall i, j :: 0 <= i < j < |keys| ==> keys[i] != keys[j]
    requires forall j :: 0 <= j < |ns| ==> fk(ns[j]) in keys
    ensures multiset(AllEdges(fk, ns, keys)) == multiset(ns)
    ensures |AllEdges(fk, ns, keys)| == |ns|
  {
    EdgesAreAmong(fk, ns, keys);
    AllAmong(fk, ns, keys);
    assert |multiset(AllEdges(fk, ns, keys))| == |multiset(ns)|;
  }

  // ---- Many to one ----

  class Child<!E> {
    const fk: int
    var edge: Option<E>

    constructor (fk: int)
      ensures this.fk == fk && edge == None
    {
      this.fk := fk;
      edge := None;
    }
  }

  /** The last entity with the id, or what there was before. */
  ghost function LookUp<E>(id: E -> int, es: seq<E>, key: int, before: Option<E>): Option<E> {
    if es == [] then before
    else if id(es[|es| - 1]) == key then Some(es[|es| - 1])
    else LookUp(id, es[..|es| - 1], key, before)
  }

  ghost predicate Grouped<E>(nodes: seq<Child<E>>, n: nat, nodeids: map<int, seq<Child<E>>>)
    requires n <= |nodes|
  {
    && (forall x :: x in nodeids ==> forall i :: 0 <= i < |nodeids[x]| ==> nodeids[x][i] in nodes[..n] && nodeids[x][i].fk == x)
    && (forall i :: 0 <= i < n ==> nodes[i].fk in nodeids && nodes[i] in nodeids[nodes[i].fk])
  }

  /** The grouping loop: each key is queried once, and every child is filed under its key. */
  method GroupByKey<E>(nodes: seq<Child<E>>) returns (ids: seq<int>, nodeids: map<int, seq<Child<E>>>)
    ensures Grouped(nodes, |nodes|, nodeids)
    ensures forall i, j :: 0 <= i < j < |ids| ==> ids[i] != ids[j]
    ensures forall x :: x in ids <==> x in nodeids
    ensures forall x :: x in nodeids <==> exists i :: 0 <= i < |nodes| && nodes[i].fk == x
  {
    ids, nodeids := [], map[];
    for i := 0 to |nodes|
      invariant Grouped(nodes, i, nodeids)
      invariant forall a, b :: 0 <= a < b < |ids| ==> ids[a] != ids[b]
      invariant forall x :: x in ids <==> x in nodeids
      invariant forall x :: x in nodeids ==> exists j :: 0 <= j < i && nodes[j].fk == x
    {
      var key := nodes[i].fk;
      if key !in nodeids {
        ids := ids + [key];
        nodeids := nodeids[key := []];
      }
      nodeids := nodeids[key := nodeids[key] + [nodes[i]]];
      assert nodes[..i + 1] == nodes[..i] + [nodes[i]];
    }
    assert nodes[..|nodes|] == nodes;
  }

  /** Sets the edge of all children filed under one key. */
  method AssignGroup<E>(group: seq<Child<E>>, e: E)
    modifies group
    ensures forall c :: c in group ==> c.edge == Some(e)
  {
    for i := 0 to |group|
      invariant forall c :: c in group[..i] ==> c.edge == Some(e)
    {
      group[i].edge := Some(e);
    }
    assert group[..|group|] == group;
  }

  /** loadIncident: the keys are queried once each, an entity that no child refers to is an
      error, and otherwise each child gets the last entity with its key. */
  method LoadManyToOne<E>(nodes: seq<Child<E>>, id: E -> int, query: seq<int> -> seq<E>) returns (ok: bool, ids: seq<int>)
    modifies nodes
    ensures forall i, j :: 0 <= i < j < |ids| ==> ids[i] != ids[j]
    ensures forall x :: x in ids <==> exists i :: 0 <= i < |nodes| && nodes[i].fk == x
    ensures ids == [] ==> ok
    ensures ids != [] ==>
              (ok <==> forall j :: 0 <= j < |query(ids)| ==> id(query(ids)[j]) in ids)
    ensures ok && ids != [] ==> forall i :: 0 <= i < |nodes| ==>
              nodes[i].edge == LookUp(id, query(ids), nodes[i].fk, old(nodes[i].edge))
  {
    var nodeids;
    ids, nodeids := GroupByKey(nodes);
    if |ids| == 0 {
      return true, ids;
    }
    var es := query(ids);
    for j := 0 to |es|
      invariant forall i :: 0 <= i < j ==> id(es[i]) in ids
      invariant forall i :: 0 <= i < |nodes| ==> nodes[i].edge == LookUp(id, es[..j], nodes[i].fk, old(nodes[i].edge))
    {
      var key: int := id(es[j]);
      if key !in nodeids {
        return false, ids;
      }
      var group := nodeids[key];
      forall i | 0 <= i < |group|
        ensures group[i] in nodes && group[i].fk == key
      {
        assert group[i] in nodes[..|nodes|];
      }
      AssignGroup(group, es[j]);
      assert es[..j + 1][..j] == es[..j];
    }
    assert es[..|es|] == es;
    ok := true;
  }

  // ---- The two directions are inverse ----

  lemma {:induction false} WithKeyMembers<N>(fk: N -> int, ns: seq<N>, key: int, n: N)
    ensures n in WithKey(fk, ns, key) <==> n in ns && fk(n) == key
  {
    if ns != [] {
      WithKeyMembers(fk, ns[..|ns| - 1], key, n);
      assert n in ns <==> n in ns[..|ns| - 1] || n == ns[|ns| - 1];
    }
  }

  lemma {:induction false} LookUpFinds<E>(id: E -> int, es: seq<E>, e: E)
    requires forall i, j :: 0 <= i < j < |es| ==> id(es[i]) != id(es[j])
    ensures e in es ==> LookUp(id, es, id(e), None) == Some(e)
  {
    if es != [] {
      var init, last := es[..|es| - 1], es[|es| - 1];
      LookUpFinds(id, init, e);
      if e in es && e != last {
        var i :| 0 <= i < |es| && es[i] == e;
        assert init[i] == e && id(es[i]) != id(es[|es| - 1]);
      }
    }
  }

  lemma {:induction false} LookUpSound<E>(id: E -> int, es: seq<E>, key: int)
    ensures LookUp(id, es, key, None).Some? ==>
              LookUp(id, es, key, None).value in es && id(LookUp(id, es, key, None).value) == key
  {
    if es != [] {
      LookUpSound(id, es[..|es| - 1], key);
    }
  }

  /** The neighbours with a key, list by list: the order of the list is kept. */
  lemma {:induction false} WithKeyConcat<N>(fk: N -> int, xs: seq<N>, ys: seq<N>, key: int)
    ensures WithKey(fk, xs + ys, key) == WithKey(fk, xs, key) + WithKey(fk, ys, key)
    ensures |xs| == 1 ==> WithKey(fk, xs, key) == if fk(xs[0]) == key then xs else []
  {
    if ys == [] {
      assert xs + ys == xs;
    } else {
      assert (xs + ys)[..|xs + ys| - 1] == xs + ys[..|ys| - 1];
      WithKeyConcat(fk, xs, ys[..|ys| - 1], key);
    }
    if |xs| == 1 {
      assert xs[..0] == [] && xs == [xs[0]];
    }
  }

  /** The entity found is the last one with the key. */
  lemma {:induction false} LookUpIsLast<E>(id: E -> int, es: seq<E>, key: int, before: Option<E>, j: nat)
    requires j < |es| && id(es[j]) == key && forall i :: j < i < |es| ==> id(es[i]) != key
    ensures LookUp(id, es, key, before) == Some(es[j])
  {
    if j < |es| - 1 {
      LookUpIsLast(id, es[..|es| - 1], key, before, j);
    }
  }

  lemma {:induction false} LookUpKeeps<E>(id: E -> int, es: seq<E>, key: int, before: Option<E>)
    requires forall i :: 0 <= i < |es| ==> id(es[i]) != key
    ensures LookUp(id, es, key, before) == before
  {
    if es != [] {
      LookUpKeeps(id, es[..|es| - 1], key, before);
    }
  }

  /** For incidents with distinct ids: a notification is among an incident's edges exactly
      when that incident is the notification's edge. */
  lemma DirectionsAreInverse<E, N>(id: E -> int, fk: N -> int, es: seq<E>, ns: seq<N>, e: E, n: N)
    requires forall i, j :: 0 <= i < j < |es| ==> id(es[i]) != id(es[j])
    requires e in es && n in ns
    ensures n in WithKey(fk, ns, id(e)) <==> LookUp(id, es, fk(n), None) == Some(e)
  {
    WithKeyMembers(fk, ns, id(e), n);
    LookUpFinds(id, es, e);
    LookUpSound(id, es, fk(n));
  }
}
