/**
 Many-to-many eager loading: one joined row stream is distributed to all parents.
 loadComponents of the incident query and loadIncidents of the component query are the
 same algorithm with the roles of the two entities exchanged.

 Store contract: every row is scanned into the holders asked for, and its join key is the
 id of one of the parents, as the query's IN condition says.
 */
module EagerLoad {
  import opened Scan

  /** A row of the join: a parent's id and a neighbour. */
  datatype Link<N> = Link(out: int, node: N)

  ghost function LinkOf<C(!new), N(!new)>(k: Codec<C, N>, fields: seq<C>, row: seq<Cell>): Link<N>
    requires Lawful(k) && Conforms(row, ShiftedHolders(k, fields))
  {
    ShiftIsSound(k, fields, row);
    Link(row[0].i, Assigned(k, k.zero, NodeColumns(k, fields), row[1..], |row| - 1).value)
  }

  ghost predicate AllConform<C, N>(k: Codec<C, N>, fields: seq<C>, rows: seq<seq<Cell>>) {
    forall i :: 0 <= i < |rows| ==> Conforms(rows[i], ShiftedHolders(k, fields))
  }

  ghost function LinksOf<C(!new), N(!new)>(k: Codec<C, N>, fields: seq<C>, rows: seq<seq<Cell>>): (ls: seq<Link<N>>)
    requires Lawful(k) && AllConform(k, fields, rows)
    ensures |ls| == |rows| && forall i :: 0 <= i < |rows| ==> ls[i] == LinkOf(k, fields, rows[i])
  {
    seq(|rows|, i requires 0 <= i < |rows| => LinkOf(k, fields, rows[i]))
  }

  // ---- The reference: the join of one parent ----

  ghost predicate Appears<N(!new)>(id: N -> int, ls: seq<Link<N>>, x: int) {
    exists i :: 0 <= i < |ls| && id(ls[i].node) == x
  }

  /** Is there a row that relates the parent to the neighbour? */
  ghost predicate Related<N(!new)>(id: N -> int, ls: seq<Link<N>>, out: int, x: int) {
    exists i :: 0 <= i < |ls| && ls[i].out == out && id(ls[i].node) == x
  }

  /** Each neighbour of the stream once, in order of first appearance. */
  ghost function Firsts<N(!new)>(id: N -> int, ls: seq<Link<N>>): seq<N> {
    if ls == [] then []
    else
      var init, last := ls[..|ls| - 1], ls[|ls| - 1];
      Firsts(id, init) + if Appears(id, init, id(last.node)) then [] else [last.node]
  }

  /** The neighbours of `ls` that rows `seen` before did not have, once each, in order of
      first appearance. */
  ghost function NewIn<N(!new)>(id: N -> int, seen: seq<Link<N>>, ls: seq<Link<N>>): seq<N> {
    if ls == [] then []
    else
      var init, last := ls[..|ls| - 1], ls[|ls| - 1];
      NewIn(id, seen, init) + if Appears(id, seen + init, id(last.node)) then [] else [last.node]
  }

  /** All rows of several runs of the query. */
  ghost function Flat<N(!new)>(runs: seq<seq<Link<N>>>): seq<Link<N>> {
    if runs == [] then [] else Flat(runs[..|runs| - 1]) + runs[|runs| - 1]
  }

  /** What the query answers each time it is run. */
  ghost function Answers<N(!new)>(id: N -> int, runs: seq<seq<Link<N>>>): seq<seq<N>> {
    if runs == [] then []
    else
      var init := runs[..|runs| - 1];
      Answers(id, init) + [NewIn(id, Flat(init), runs[|runs| - 1])]
  }

  /** Those of `ns` that the rows relate to the parent, in their order. */
  ghost function RelatedOf<N(!new)>(id: N -> int, ls: seq<Link<N>>, out: int, ns: seq<N>): seq<N> {
    if ns == [] then []
    else
      var n := ns[|ns| - 1];
      RelatedOf(id, ls, out, ns[..|ns| - 1]) + if Related(id, ls, out, id(n)) then [n] else []
  }

  // ---- The algorithm ----

  class Parent<!N> {
    const id: int
    var edges: seq<N>

    constructor (id: int)
      ensures this.id == id && edges == []
    {
      this.id := id;
      edges := [];
    }
  }

  ghost predicate DistinctObjects<N>(nodes: seq<Parent<N>>) {
    forall i, j :: 0 <= i < j < |nodes| ==> nodes[i] != nodes[j]
  }

  ghost function Members<N>(nodes: seq<Parent<N>>): set<Parent<N>> {
    set q | q in nodes
  }

  /** No later one of the first n parents has the same id. */
  ghost predicate LastAmong<N>(nodes: seq<Parent<N>>, p: nat, n: nat)
    requires p < n <= |nodes|
  {
    forall q :: p < q < n ==> nodes[q].id != nodes[p].id
  }

  /** No later parent has the same id. */
  ghost predicate LastWithId<N>(nodes: seq<Parent<N>>, p: nat)
    requires p < |nodes|
  {
    LastAmong(nodes, p, |nodes|)
  }

  /** byID holds the last of the first n parents with each id. */
  ghost predicate IndexedUpTo<N>(nodes: seq<Parent<N>>, n: nat, byID: map<int, Parent<N>>)
    requires n <= |nodes|
  {
    && (forall p :: 0 <= p < n ==> nodes[p].id in byID && (byID[nodes[p].id] == nodes[p] <==> LastAmong(nodes, p, n)))
    && (forall x :: x in byID ==> byID[x].id == x && byID[x] in nodes)
  }

  lemma IndexOneParent<N>(nodes: seq<Parent<N>>, n: nat, byID: map<int, Parent<N>>)
    requires DistinctObjects(nodes) && n < |nodes| && IndexedUpTo(nodes, n, byID)
    ensures IndexedUpTo(nodes, n + 1, byID[nodes[n].id := nodes[n]])
  {
    forall p | 0 <= p < n
      ensures LastAmong(nodes, p, n + 1) <==> LastAmong(nodes, p, n) && nodes[n].id != nodes[p].id
    {
    }
  }

  /** byID: of parents with the same id the last one stays; every parent starts without edges. */
  method IndexParents<N>(nodes: seq<Parent<N>>) returns (byID: map<int, Parent<N>>)
    requires DistinctObjects(nodes)
    modifies nodes
    ensures forall p :: 0 <= p < |nodes| ==> nodes[p].edges == []
    ensures IndexedUpTo(nodes, |nodes|, byID)
  {
    byID := map[];
    for i := 0 to |nodes|
      invariant forall p :: 0 <= p < i ==> nodes[p].edges == []
      invariant IndexedUpTo(nodes, i, byID)
    {
      IndexOneParent(nodes, i, byID);
      byID := byID[nodes[i].id := nodes[i]];
      nodes[i].edges := [];
    }
  }

  /** The parents that the rows relate to neighbour x. */
  ghost function ParentsOf<N(!new)>(id: N -> int, byID: map<int, Parent<N>>, ls: seq<Link<N>>, x: int): set<Parent<N>> {
    set out | out in byID && Related(id, ls, out, x) :: byID[out]
  }

  /** nids: for each neighbour of the stream, the parents its rows name. */
  ghost predicate Indexed<N(!new)>(
    id: N -> int, byID: map<int, Parent<N>>, ls: seq<Link<N>>, nids: map<int, set<Parent<N>>>)
  {
    && (forall x :: x in nids <==> Appears(id, ls, x))
    && (forall x :: x in nids ==> nids[x] == ParentsOf(id, byID, ls, x))
  }

  lemma IndexOneMore<N(!new)>(
    id: N -> int, byID: map<int, Parent<N>>, ls: seq<Link<N>>, l: Link<N>,
    nids: map<int, set<Parent<N>>>, nids': map<int, set<Parent<N>>>)
    requires Indexed(id, byID, ls, nids) && l.out in byID && byID[l.out].id == l.out
    requires var x := id(l.node); nids' == nids[x := (if x in nids then nids[x] else {}) + {byID[l.out]}]
    ensures Indexed(id, byID, ls + [l], nids')
  {
    var ls' := ls + [l];
    forall x
      ensures x in nids' <==> Appears(id, ls', x)
      ensures x in nids' ==> nids'[x] == ParentsOf(id, byID, ls', x)
    {
      AppearsOneMore(id, ls, l, x);
      forall out
        ensures Related(id, ls', out, x) <==> Related(id, ls, out, x) || (l.out == out && id(l.node) == x)
        ensures Related(id, ls, out, x) ==> Appears(id, ls, x)
      {
        RelatedOneMore(id, ls, l, out, x);
      }
      if x !in nids {
        assert ParentsOf(id, byID, ls, x) == {};
      }
      if x == id(l.node) {
        assert ParentsOf(id, byID, ls', x) == ParentsOf(id, byID, ls, x) + {byID[l.out]};
      } else {
        assert ParentsOf(id, byID, ls', x) == ParentsOf(id, byID, ls, x);
      }
    }
  }

  lemma AppearsOneMore<N(!new)>(id: N -> int, ls: seq<Link<N>>, l: Link<N>, x: int)
    ensures Appears(id, ls + [l], x) <==> Appears(id, ls, x) || id(l.node) == x
  {
    assert (ls + [l])[|ls|] == l;
    if Appears(id, ls, x) {
      var i :| 0 <= i < |ls| && id(ls[i].node) == x;
      assert (ls + [l])[i] == ls[i];
    }
  }

  lemma RelatedOneMore<N(!new)>(id: N -> int, ls: seq<Link<N>>, l: Link<N>, out: int, x: int)
    ensures Related(id, ls + [l], out, x) <==> Related(id, ls, out, x) || (l.out == out && id(l.node) == x)
  {
    assert (ls + [l])[|ls|] == l;
    if Related(id, ls, out, x) {
      var i :| 0 <= i < |ls| && ls[i].out == out && id(ls[i].node) == x;
      assert (ls + [l])[i] == ls[i];
    }
  }

  lemma FirstsOneMore<N(!new)>(id: N -> int, ls: seq<Link<N>>, l: Link<N>)
    ensures Firsts(id, ls + [l]) == Firsts(id, ls) + if Appears(id, ls, id(l.node)) then [] else [l.node]
  {
    assert (ls + [l])[..|ls|] == ls;
  }

  /** The neighbour's own Assign on the shifted columns and values; it does not fail. */
  method DecodeNeighbour<C(!new, ==), N(!new)>(k: Codec<C, N>, fields: seq<C>, row: seq<Cell>) returns (node: N)
    requires Lawful(k) && Conforms(row, ShiftedHolders(k, fields))
    ensures node == LinkOf(k, fields, row).node
  {
    ShiftIsSound(k, fields, row);
    var columns := QuerySpecColumns(k, fields);
    var entity := new Entity(k.zero);
    var ok := entity.AssignValues(k, columns, row[1..]);
    node := entity.data;
  }

  ghost predicate Decodes<C(!new), N(!new)>(k: Codec<C, N>, fields: seq<C>, row: seq<Cell>, l: Link<N>) {
    Lawful(k) && Conforms(row, ShiftedHolders(k, fields)) && l == LinkOf(k, fields, row)
  }

  /** The two leading values of a row: the parent's id and the neighbour's id. */
  method JoinKeys<C(!new), N(!new)>(k: Codec<C, N>, ghost fields: seq<C>, row: seq<Cell>)
    returns (outValue: int, inValue: int)
    requires Lawful(k) && Conforms(row, ShiftedHolders(k, fields))
    ensures outValue == LinkOf(k, fields, row).out && inValue == k.id(LinkOf(k, fields, row).node)
  {
    ShiftIsSound(k, fields, row);
    outValue, inValue := row[0].i, row[1].i;
  }

  /** What one row does to nids and to the list of neighbours; `seen` are the rows of earlier
      runs of the query, `done` those of this one. */
  method ScanRow<C(!new, ==), N(!new)>(
    k: Codec<C, N>, fields: seq<C>, row: seq<Cell>, byID: map<int, Parent<N>>,
    nids0: map<int, set<Parent<N>>>, neighbours0: seq<N>,
    ghost seen: seq<Link<N>>, ghost done: seq<Link<N>>, ghost l: Link<N>)
    returns (nids: map<int, set<Parent<N>>>, neighbours: seq<N>)
    requires Decodes(k, fields, row, l) && l.out in byID && byID[l.out].id == l.out
    requires Indexed(k.id, byID, seen + done, nids0) && neighbours0 == NewIn(k.id, seen, done)
    ensures Indexed(k.id, byID, seen + (done + [l]), nids) && neighbours == NewIn(k.id, seen, done + [l])
  {
    nids, neighbours := nids0, neighbours0;
    var outValue, inValue := JoinKeys(k, fields, row);
    if inValue !in nids {
      nids := nids[inValue := {byID[outValue]}];
      var node := DecodeNeighbour(k, fields, row);
      neighbours := neighbours + [node];
    } else {
      nids := nids[inValue := nids[inValue] + {byID[outValue]}];
    }
    ghost var was: set<Parent<N>> := if inValue in nids0 then nids0[inValue] else {};
    assert nids[inValue] == was + {byID[l.out]};
    IndexOneMore(k.id, byID, seen + done, l, nids0, nids);
    assert seen + (done + [l]) == seen + done + [l];
    assert (done + [l])[..|done|] == done;
  }

  lemma OneMoreRow<N(!new)>(seen: seq<Link<N>>, ls: seq<Link<N>>, r: nat)
    requires r < |ls|
    ensures ls[..r + 1] == ls[..r] + [ls[r]] && seen + ls[..r + 1] == seen + (ls[..r] + [ls[r]])
  {
  }

  /** The rewritten Assign, row by row: a neighbour seen for the first time, in this run of the
      query or an earlier one, becomes a node; later rows only add a parent. */
  method ScanRows<C(!new, ==), N(!new)>(
    k: Codec<C, N>, fields: seq<C>, rows: seq<seq<Cell>>, byID: map<int, Parent<N>>,
    nids0: map<int, set<Parent<N>>>, ghost seen: seq<Link<N>>, ghost ls: seq<Link<N>>)
    returns (nids: map<int, set<Parent<N>>>, neighbours: seq<N>)
    requires |ls| == |rows| && forall i :: 0 <= i < |rows| ==> Decodes(k, fields, rows[i], ls[i])
    requires forall x :: x in byID ==> byID[x].id == x
    requires forall i :: 0 <= i < |ls| ==> ls[i].out in byID
    requires Indexed(k.id, byID, seen, nids0)
    ensures Indexed(k.id, byID, seen + ls, nids) && neighbours == NewIn(k.id, seen, ls)
  {
    nids, neighbours := nids0, [];
    assert seen + [] == seen;
    for r := 0 to |rows|
      invariant Indexed(k.id, byID, seen + ls[..r], nids) && neighbours == NewIn(k.id, seen, ls[..r])
    {
      nids, neighbours := ScanRow(k, fields, rows[r], byID, nids, neighbours, seen, ls[..r], ls[r]);
      OneMoreRow(seen, ls, r);
    }
    assert ls[..|rows|] == ls;
  }

  // ---- Distribution ----

  /** The neighbours of `ns` whose entry in nids names parent q. */
  ghost function NamedFor<N>(id: N -> int, nids: map<int, set<Parent<N>>>, q: Parent<N>, ns: seq<N>): seq<N> {
    if ns == [] then []
    else
      var n := ns[|ns| - 1];
      NamedFor(id, nids, q, ns[..|ns| - 1]) + if id(n) in nids && q in nids[id(n)] then [n] else []
  }

  /** Appends n to every parent of the set, in whatever order the Go map gives them. */
  method AssignToAll<N>(parents: set<Parent<N>>, n: N, nodes: seq<Parent<N>>)
    requires DistinctObjects(nodes) && parents <= Members(nodes)
    modifies nodes
    ensures forall p :: 0 <= p < |nodes| ==>
              nodes[p].edges == old(nodes[p].edges) + if nodes[p] in parents then [n] else []
  {
    var rest := parents;
    while rest != {}
      invariant rest <= parents
      invariant forall p :: 0 <= p < |nodes| ==>
                  nodes[p].edges == old(nodes[p].edges) + if nodes[p] in parents - rest then [n] else []
      decreases rest
    {
      var kn :| kn in rest;
      kn.edges := kn.edges + [n];
      rest := rest - {kn};
    }
  }

  /** The last loop: an unknown neighbour is an error, otherwise each parent gets its own. */
  method Distribute<N>(id: N -> int, nids: map<int, set<Parent<N>>>, ns: seq<N>, nodes: seq<Parent<N>>)
    returns (ok: bool)
    requires DistinctObjects(nodes)
    requires forall x :: x in nids ==> nids[x] <= Members(nodes)
    requires forall p :: 0 <= p < |nodes| ==> nodes[p].edges == []
    modifies nodes
    ensures ok <==> forall j :: 0 <= j < |ns| ==> id(ns[j]) in nids
    ensures ok ==> forall p :: 0 <= p < |nodes| ==> nodes[p].edges == NamedFor(id, nids, nodes[p], ns)
  {
    for j := 0 to |ns|
      invariant forall i :: 0 <= i < j ==> id(ns[i]) in nids
      invariant forall p :: 0 <= p < |nodes| ==> nodes[p].edges == NamedFor(id, nids, nodes[p], ns[..j])
    {
      var n := ns[j];
      var x: int := id(n);
      if x !in nids {
        return false;
      }
      AssignToAll(nids[x], n, nodes);
      assert ns[..j + 1][..j] == ns[..j];
    }
    assert ns[..|ns|] == ns;
    ok := true;
  }

  lemma {:induction false} NamedIsRelated<N(!new)>(
    id: N -> int, byID: map<int, Parent<N>>, ls: seq<Link<N>>, nids: map<int, set<Parent<N>>>, q: Parent<N>, ns: seq<N>)
    requires Indexed(id, byID, ls, nids) && q.id in byID && forall x :: x in byID ==> byID[x].id == x
    requires forall j :: 0 <= j < |ns| ==> id(ns[j]) in nids
    ensures NamedFor(id, nids, q, ns) == if byID[q.id] == q then RelatedOf(id, ls, q.id, ns) else []
  {
    if ns != [] {
      var x := id(ns[|ns| - 1]);
      NamedIsRelated(id, byID, ls, nids, q, ns[..|ns| - 1]);
      assert q in ParentsOf(id, byID, ls, x) <==> byID[q.id] == q && Related(id, ls, q.id, x);
    }
  }

  /** Every run of the query returns conforming rows of the parents it was asked for. */
  ghost predicate StoreContract<C(!new), N(!new)>(k: Codec<C, N>, ids: seq<int>, fields: seq<C>, runs: seq<seq<seq<Cell>>>)
    requires Lawful(k)
  {
    && (forall r :: 0 <= r < |runs| ==> AllConform(k, fields, runs[r]))
    && (forall r, i :: 0 <= r < |runs| && 0 <= i < |runs[r]| ==> LinkOf(k, fields, runs[r][i]).out in ids)
  }

  ghost function IdsOfParents<N>(nodes: seq<Parent<N>>): (ids: seq<int>)
    ensures |ids| == |nodes| && forall p :: 0 <= p < |nodes| ==> ids[p] == nodes[p].id
  {
    seq(|nodes|, p requires 0 <= p < |nodes| => nodes[p].id)
  }

  ghost function RunsOf<C(!new), N(!new)>(k: Codec<C, N>, fields: seq<C>, runs: seq<seq<seq<Cell>>>)
    : (r: seq<seq<Link<N>>>)
    requires Lawful(k) && forall i :: 0 <= i < |runs| ==> AllConform(k, fields, runs[i])
    ensures |r| == |runs| && forall i :: 0 <= i < |runs| ==> r[i] == LinksOf(k, fields, runs[i])
  {
    seq(|runs|, i requires 0 <= i < |runs| => LinksOf(k, fields, runs[i]))
  }

  lemma OneMoreRun<N(!new)>(id: N -> int, runs: seq<seq<Link<N>>>, r: nat)
    requires r < |runs|
    ensures Flat(runs[..r + 1]) == Flat(runs[..r]) + runs[r]
    ensures Answers(id, runs[..r + 1]) == Answers(id, runs[..r]) + [NewIn(id, Flat(runs[..r]), runs[r])]
  {
    var more := runs[..r + 1];
    assert more[..|more| - 1] == runs[..r] && more[|more| - 1] == runs[r];
  }

  /** The query under its interceptors: they run it any number of times, `runs` holding the
      rows of each time, and get the neighbours that are new each time. */
  method Query<C(!new, ==), N(!new)>(
    k: Codec<C, N>, ghost ids: seq<int>, fields: seq<C>, runs: seq<seq<seq<Cell>>>, byID: map<int, Parent<N>>)
    returns (nids: map<int, set<Parent<N>>>, answers: seq<seq<N>>)
    requires Lawful(k) && StoreContract(k, ids, fields, runs)
    requires forall x :: x in byID ==> byID[x].id == x
    requires forall x :: x in ids ==> x in byID
    ensures Indexed(k.id, byID, Flat(RunsOf(k, fields, runs)), nids)
    ensures answers == Answers(k.id, RunsOf(k, fields, runs))
  {
    nids, answers := map[], [];
    ghost var ls := RunsOf(k, fields, runs);
    for r := 0 to |runs|
      invariant Indexed(k.id, byID, Flat(ls[..r]), nids) && answers == Answers(k.id, ls[..r])
    {
      ghost var l := LinksOf(k, fields, runs[r]);
      forall i | 0 <= i < |l|
        ensures l[i].out in byID
      {
        assert LinkOf(k, fields, runs[r][i]).out in ids;
      }
      var news;
      nids, news := ScanRows(k, fields, runs[r], byID, nids, Flat(ls[..r]), l);
      answers := answers + [news];
      OneMoreRun(k.id, ls, r);
    }
    assert ls[..|runs|] == ls;
  }

  /** loadComponents and loadIncidents, for every list of parents, every iteration order of Go
      maps and every interceptor, however often it runs the query and whatever rows each run
      returns: an error exactly when the interceptors return a neighbour that was in no row;
      otherwise each parent ends with the returned neighbours that the rows relate to it, in
      the order returned. Of parents with the same id only the last one gets edges. */
  method LoadManyToMany<C(!new, ==), N(!new)>(
    k: Codec<C, N>, nodes: seq<Parent<N>>, fields: seq<C>, runs: seq<seq<seq<Cell>>>, intercept: seq<seq<N>> -> seq<N>)
    returns (ok: bool)
    requires DistinctObjects(nodes) && Lawful(k) && StoreContract(k, IdsOfParents(nodes), fields, runs)
    modifies nodes
    ensures var ls := Flat(RunsOf(k, fields, runs));
      var ns := intercept(Answers(k.id, RunsOf(k, fields, runs)));
      && (ok <==> forall j :: 0 <= j < |ns| ==> Appears(k.id, ls, k.id(ns[j])))
      && (ok ==> forall p :: 0 <= p < |nodes| ==>
            nodes[p].edges == if LastWithId(nodes, p) then RelatedOf(k.id, ls, nodes[p].id, ns) else [])
  {
    var byID := IndexParents(nodes);
    ghost var ids := IdsOfParents(nodes);
    var nids, answers := Query(k, ids, fields, runs, byID);
    ghost var ls := Flat(RunsOf(k, fields, runs));
    var ns := intercept(answers);
    ok := Distribute(k.id, nids, ns, nodes);
    if ok {
      forall p | 0 <= p < |nodes|
        ensures nodes[p].edges == if LastWithId(nodes, p) then RelatedOf(k.id, ls, nodes[p].id, ns) else []
      {
        NamedIsRelated(k.id, byID, ls, nids, nodes[p], ns);
      }
    }
  }
}
