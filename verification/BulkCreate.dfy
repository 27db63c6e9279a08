/**
 The bulk save nests builder i+1's hook chain inside builder i's innermost step and ends
 in one batch insert. These lemmas say what every such run looks like.
 */
module BulkCreate {
  import opened Wrappers
  import opened Middleware
  import opened Create

  // ---- What hooks of a builder may do by themselves ----

  ghost predicate OwnEvents<F>(es: seq<Event<F>>, owner: nat) {
    forall k :: 0 <= k < |es| ==> es[k].Hooked? && es[k].owner == owner
  }

  /** A hook logs events of its own, edits mutations, but not whether they are done, and
      edits nodes. With `ids` it does not call SetID on a mutation that exists, with `nodes`
      it does not edit nodes. */
  ghost predicate HookMay<F>(owner: nat, ids: bool, nodes: bool, s: State<F>, t: State<F>) {
    && s.trace <= t.trace && OwnEvents(t.trace[|s.trace|..], owner)
    && t == s.(trace := t.trace, muts := t.muts, objs := t.objs)
    && |t.objs| == |s.objs| && (nodes ==> t.objs == s.objs)
    && (forall m :: m in s.muts ==> m in t.muts && t.muts[m].done == s.muts[m].done)
    && (ids ==> forall m :: m in s.muts && m in t.muts ==> t.muts[m].id == s.muts[m].id)
    && (ValidIds(s) ==> ValidIds(t))
  }

  /** What hooks of a builder promise. `ids`: they set no id from the first answer on; on the
      way in they may. `nodes`: they do not edit nodes. `once`: they call next at most once.
      `honest`: they report success only for a success of next. `loyal`: they report a success
      of next as success. `sameArg`: they pass their own mutation on. */
  datatype Promise = Promise(ids: bool, nodes: bool, once: bool, honest: bool, loyal: bool, sameArg: bool)

  const NO_PROMISE := Promise(false, false, false, false, false, false)
  const ONCE := NO_PROMISE.(once := true)
  const SAME_ARG := NO_PROMISE.(sameArg := true)

  function Answering(p: Promise): (Option<Result>, Result) -> bool {
    (last: Option<Result>, r: Result) =>
      && (p.honest && r.Ok? ==> last.Some? && last.value.Ok?)
      && (p.loyal && last.Some? && last.value.Ok? ==> r.Ok?)
  }

  ghost function HookLaw<F(!new)>(owner: nat, p: Promise): Law<State<F>, Result> {
    Law((s, t) => HookMay(owner, false, p.nodes, s, t), (s, t) => HookMay(owner, p.ids, p.nodes, s, t),
        p.once, Answering(p), p.sameArg)
  }

  lemma HookMayTransitive<F>(owner: nat, ids: bool, nodes: bool, s: State<F>, t: State<F>, u: State<F>)
    requires HookMay(owner, ids, nodes, s, t) && HookMay(owner, ids, nodes, t, u)
    ensures HookMay(owner, ids, nodes, s, u)
  {
    assert u.trace[|s.trace|..] == t.trace[|s.trace|..] + u.trace[|t.trace|..];
  }

  lemma HookMayPreorder<F(!new)>(owner: nat, ids: bool, nodes: bool)
    ensures Preorder((s: State<F>, t: State<F>) => HookMay(owner, ids, nodes, s, t))
  {
    forall s: State<F>, t, u | HookMay(owner, ids, nodes, s, t) && HookMay(owner, ids, nodes, t, u)
      ensures HookMay(owner, ids, nodes, s, u)
    {
      HookMayTransitive(owner, ids, nodes, s, t, u);
    }
  }

  lemma HookLawOrdered<F(!new)>(owner: nat, p: Promise)
    ensures Ordered(HookLaw<F>(owner, p))
  {
    HookMayPreorder<F>(owner, false, p.nodes);
    HookMayPreorder<F>(owner, p.ids, p.nodes);
    var law := HookLaw<F>(owner, p);
    assert Preorder(law.before) && Preorder(law.after);
  }

  /** Every builder's hooks keep the same promise, each under the builder's own name. */
  ghost predicate BuildersLawful<F(!new)>(hooks: seq<seq<MutationHook<F>>>, p: Promise) {
    forall i :: 0 <= i < |hooks| ==> AllLawful(hooks[i], HookLaw(i, p))
  }

  // ---- The order of events ----

  /** How deep in the chain an event happens. */
  ghost function Level<F>(e: Event<F>, n: nat): nat {
    match e
    case Hooked(owner, _) => owner
    case Checked(i) => i
    case CheckFailed(i) => i
    case SpecBuilt(i) => i
    case Inserted(_) => n
    case InsertFailed => n
  }

  /** Events on the way in: levels never go down. */
  ghost predicate Climbs<F>(es: seq<Event<F>>, low: nat, n: nat) {
    && (forall k :: 0 <= k < |es| ==> low <= Level(es[k], n))
    && (forall j, k :: 0 <= j < k < |es| ==> Level(es[j], n) <= Level(es[k], n))
  }

  /** Events on the way out: hook events only, and levels never go up. */
  ghost predicate Unwinds<F>(es: seq<Event<F>>, low: nat, n: nat) {
    && (forall k :: 0 <= k < |es| ==> es[k].Hooked? && low <= Level(es[k], n))
    && (forall j, k :: 0 <= j < k < |es| ==> Level(es[k], n) <= Level(es[j], n))
  }

  /** The events of the builders themselves, without those of hooks. */
  ghost function Core<F>(es: seq<Event<F>>): seq<Event<F>> {
    if es == [] then []
    else if es[0].Hooked? then Core(es[1..])
    else [es[0]] + Core(es[1..])
  }

  lemma {:induction false} CoreConcat<F>(xs: seq<Event<F>>, ys: seq<Event<F>>)
    ensures Core(xs + ys) == Core(xs) + Core(ys)
  {
    if xs == [] {
      assert xs + ys == ys;
    } else {
      assert (xs + ys)[1..] == xs[1..] + ys;
      CoreConcat(xs[1..], ys);
    }
  }

  lemma {:induction false} CoreOfHooks<F>(es: seq<Event<F>>)
    requires forall k :: 0 <= k < |es| ==> es[k].Hooked?
    ensures Core(es) == []
  {
    if es != [] {
      CoreOfHooks(es[1..]);
    }
  }

  /** From builder i on: nothing, a failed check, or check and spec of i followed by the
      script of builder i+1. After the last builder comes the one insert. */
  ghost predicate Script<F>(es: seq<Event<F>>, i: nat, n: nat)
    requires i <= n
    decreases n - i
  {
    if i == n then |es| == 1 && (es[0].InsertFailed? || (es[0].Inserted? && |es[0].batch| == n))
    else
      || es == []
      || es == [CheckFailed(i)]
      || (|es| >= 2 && es[0] == Checked(i) && es[1] == SpecBuilt(i) && Script(es[2..], i + 1, n))
  }

  /** Rows change by exactly the rows of the inserted batch. */
  ghost predicate RowsFollow<F>(before: seq<Row<F>>, after: seq<Row<F>>, core: seq<Event<F>>) {
    if core != [] && core[|core| - 1].Inserted?
    then
      var b := core[|core| - 1].batch;
      && |after| == |before| + |b| && before <= after
      && forall k :: 0 <= k < |b| ==> after[|before| + k].body == b[k].body
    else after == before
  }

  /** What a run entered at builder i leaves alone. */
  ghost predicate KeepsOuter<F>(s: State<F>, t: State<F>, i: nat, n: nat) {
    && Fits(s, n) && Fits(t, n) && i <= n
    && s.muts.Keys <= t.muts.Keys && |s.objs| <= |t.objs|
    && (forall j :: 0 <= j < i ==> t.current[j] == s.current[j] && t.nodes[j] == s.nodes[j])
    && (forall j :: 0 <= j < i ==> (s.specs[j].Some? <==> t.specs[j].Some?))
  }

  /** The events of a run entered at builder i: climbing, then unwinding, following the script. */
  ghost predicate WellNested<F>(up: seq<Event<F>>, down: seq<Event<F>>, i: nat, n: nat) {
    i <= n && Climbs(up, i, n) && Unwinds(down, i, n) && Script(Core(up), i, n)
  }

  ghost predicate Nested<F>(s: State<F>, t: State<F>, up: seq<Event<F>>, down: seq<Event<F>>, i: nat, n: nat) {
    && WellNested(up, down, i, n)
    && KeepsOuter(s, t, i, n)
    && t.trace == s.trace + up + down
    && RowsFollow(s.rows, t.rows, Core(up))
  }

  /** The first i builders have node and spec, and no spec has an id of zero from the database. */
  ghost predicate SpecsBuilt<F>(s: State<F>, i: nat) {
    forall j :: 0 <= j < i && j < |s.specs| && j < |s.nodes| ==>
      s.specs[j].Some? && s.nodes[j].Some? && s.specs[j].value.id != FromDatabase(0)
  }

  lemma ClimbsAfterOwn<F>(pre: seq<Event<F>>, up: seq<Event<F>>, i: nat, n: nat)
    requires OwnEvents(pre, i) && Climbs(up, i, n)
    ensures Climbs(pre + up, i, n)
  {
    var all := pre + up;
    forall k | 0 <= k < |all|
      ensures i <= Level(all[k], n) && (k < |pre| ==> Level(all[k], n) == i)
    {
      assert all[k] == if k < |pre| then pre[k] else up[k - |pre|];
    }
    forall j, k | 0 <= j < k < |all|
      ensures Level(all[j], n) <= Level(all[k], n)
    {
      if j >= |pre| {
        assert all[j] == up[j - |pre|] && all[k] == up[k - |pre|];
      }
    }
  }

  lemma UnwindsBeforeOwn<F>(down: seq<Event<F>>, post: seq<Event<F>>, i: nat, n: nat)
    requires OwnEvents(post, i) && Unwinds(down, i, n)
    ensures Unwinds(down + post, i, n)
  {
    var all := down + post;
    forall k | 0 <= k < |all|
      ensures all[k].Hooked? && i <= Level(all[k], n) && (k >= |down| ==> Level(all[k], n) == i)
    {
      assert all[k] == if k < |down| then down[k] else post[k - |down|];
    }
    forall j, k | 0 <= j < k < |all|
      ensures Level(all[k], n) <= Level(all[j], n)
    {
      if k < |down| {
        assert all[j] == down[j] && all[k] == down[k];
      }
    }
  }

  lemma EventsAround<F>(pre: seq<Event<F>>, up: seq<Event<F>>, down: seq<Event<F>>, post: seq<Event<F>>, i: nat, n: nat)
    requires OwnEvents(pre, i) && WellNested(up, down, i, n) && OwnEvents(post, i)
    ensures WellNested(pre + up, down + post, i, n) && Core(pre + up) == Core(up)
  {
    CoreOfHooks(pre);
    CoreConcat(pre, up);
    assert Core(pre + up) == Core(up);
    ClimbsAfterOwn(pre, up, i, n);
    UnwindsBeforeOwn(down, post, i, n);
  }

  lemma KeepsOuterAround<F>(s: State<F>, s1: State<F>, s2: State<F>, t: State<F>, i: nat, n: nat)
    requires HookMay(i, false, false, s, s1) && KeepsOuter(s1, s2, i, n) && HookMay(i, false, false, s2, t) && Fits(s, n)
    ensures KeepsOuter(s, t, i, n)
  {
  }

  lemma HooksAround<F>(
    s: State<F>, s1: State<F>, s2: State<F>, t: State<F>, up: seq<Event<F>>, down: seq<Event<F>>, i: nat, n: nat)
    returns (down': seq<Event<F>>)
    requires HookMay(i, false, false, s, s1) && Nested(s1, s2, up, down, i, n) && HookMay(i, false, false, s2, t)
    requires Fits(s, n)
    ensures Nested(s, t, s1.trace[|s.trace|..] + up, down', i, n)
  {
    var pre, post := s1.trace[|s.trace|..], t.trace[|s2.trace|..];
    down' := down + post;
    EventsAround(pre, up, down, post, i, n);
    KeepsOuterAround(s, s1, s2, t, i, n);
    assert t.trace == s.trace + (pre + up) + down';
  }

  lemma InsertKeeps<F(!new)>(c: Setup<F>, s: State<F>, n: nat)
    requires StoreContract(c) && Fits(s, n) && SpecsBuilt(s, n)
    ensures KeepsOuter(s, Insert(c, s).0, n, n) && SpecsBuilt(Insert(c, s).0, n)
  {
    var t := Insert(c, s).0;
    assert forall m :: m in t.muts ==> ValidId(s.muts[m].id, s.objs);
  }

  lemma InsertNested<F(!new)>(c: Setup<F>, s: State<F>, n: nat) returns (up: seq<Event<F>>)
    requires StoreContract(c) && Fits(s, n) && SpecsBuilt(s, n)
    ensures Nested(s, Insert(c, s).0, up, [], n, n)
    ensures Insert(c, s).1.Returned? && SpecsBuilt(Insert(c, s).0, n)
    ensures Insert(c, s).1.r.Ok? <==> up[0].Inserted?
  {
    var b := Values(s.specs);
    up := if c.insert(s.rows, b).None? then [InsertFailed] else [Inserted(b)];
    assert up[1..] == [];
    InsertKeeps(c, s, n);
  }

  lemma HandOverKeeps<F>(s: State<F>, i: nat, m: nat, n: nat)
    requires Fits(s, n) && i < n && m in s.muts && SpecsBuilt(s, i)
    ensures KeepsOuter(s, HandOver(s, i, m), i, n) && SpecsBuilt(HandOver(s, i, m), i + 1)
    ensures HandOver(s, i, m).trace == s.trace + [Checked(i), SpecBuilt(i)] && HandOver(s, i, m).rows == s.rows
  {
    var t := HandOver(s, i, m);
    assert forall k :: k in t.muts ==> ValidId(s.muts[k].id, s.objs);
  }

  lemma CloseKeeps<F>(back: bool, n: nat, i: nat, m: nat, below: (State<F>, Outcome<Result>))
    requires i < n && Fits(below.0, n)
    ensures KeepsOuter(below.0, Close(back, n, i, m, below).0, i, n)
    ensures Close(back, n, i, m, below).0.trace == below.0.trace && Close(back, n, i, m, below).0.rows == below.0.rows
  {
    var s, t := below.0, Close(back, n, i, m, below).0;
    assert forall k :: k in t.muts && k != m ==> t.muts[k] == s.muts[k] && ValidId(s.muts[k].id, s.objs);
  }

  lemma StepEvents<F>(tail: seq<Event<F>>, down: seq<Event<F>>, i: nat, n: nat)
    requires i < n && WellNested(tail, down, i + 1, n)
    ensures WellNested([Checked(i), SpecBuilt(i)] + tail, down, i, n)
    ensures Core([Checked(i), SpecBuilt(i)] + tail) == [Checked(i), SpecBuilt(i)] + Core(tail)
  {
    var head: seq<Event<F>> := [Checked(i), SpecBuilt(i)];
    CoreConcat(head, tail);
    assert head[1..][1..] == [] && Core(head) == head;
    assert (head + Core(tail))[2..] == Core(tail);
  }

  lemma StepNested<F>(
    s: State<F>, s1: State<F>, s2: State<F>, t: State<F>, tail: seq<Event<F>>, down: seq<Event<F>>, i: nat, n: nat)
    requires i < n && KeepsOuter(s, s1, i, n) && s1.rows == s.rows
    requires s1.trace == s.trace + [Checked(i), SpecBuilt(i)]
    requires Nested(s1, s2, tail, down, i + 1, n)
    requires KeepsOuter(s2, t, i, n) && t.trace == s2.trace && t.rows == s2.rows
    ensures Nested(s, t, [Checked(i), SpecBuilt(i)] + tail, down, i, n)
  {
    var head: seq<Event<F>> := [Checked(i), SpecBuilt(i)];
    StepEvents(tail, down, i, n);
    assert t.trace == s.trace + (head + tail) + down;
    var full := head + Core(tail);
    assert Core(tail) != [] ==> full[|full| - 1] == Core(tail)[|Core(tail)| - 1];
  }

  lemma {:induction false} BelowNested<F(!new)>(c: Setup<F>, hooks: seq<seq<MutationHook<F>>>, i: nat, s: State<F>)
    returns (up: seq<Event<F>>, down: seq<Event<F>>)
    requires StoreContract(c) && AllBuildersValid(hooks) && i < |hooks|
    requires BuildersLawful(hooks, ONCE)
    requires Fits(s, |hooks|) && SpecsBuilt(s, i + 1)
    ensures Nested(s, Below(c, hooks, i, s).0, up, down, i + 1, |hooks|)
    decreases |hooks| - i, 0
  {
    if i + 1 < |hooks| {
      up, down := MutateNested(c, hooks, i + 1, s.current[i + 1], s);
    } else {
      up := InsertNested(c, s, |hooks|);
      down := [];
    }
  }

  lemma {:induction false} InnerNested<F(!new)>(
    c: Setup<F>, hooks: seq<seq<MutationHook<F>>>, i: nat, m: nat, s: State<F>)
    returns (up: seq<Event<F>>, down: seq<Event<F>>)
    requires StoreContract(c) && AllBuildersValid(hooks) && i < |hooks|
    requires BuildersLawful(hooks, ONCE)
    requires Fits(s, |hooks|) && SpecsBuilt(s, i)
    ensures Nested(s, Inner(c, hooks, i, m, s).0, up, down, i, |hooks|)
    decreases |hooks| - i, 1
  {
    var n := |hooks|;
    up, down := [], [];
    if m in s.muts {
      if c.check(s.muts[s.current[i]].fields).Some? {
        up := [CheckFailed(i)];
        assert up[1..] == [];
      } else {
        HandOverKeeps(s, i, m, n);
        var s1 := HandOver(s, i, m);
        var tail;
        tail, down := BelowNested(c, hooks, i, s1);
        var below := Below(c, hooks, i, s1);
        CloseKeeps(c.readsBack, n, i, m, below);
        StepNested(s, s1, below.0, Close(c.readsBack, n, i, m, below).0, tail, down, i, n);
        up := [Checked(i), SpecBuilt(i)] + tail;
      }
    }
  }

  /** Every run of builder i's mutator, hooks included, is properly nested. */
  lemma {:induction false} MutateNested<F(!new)>(
    c: Setup<F>, hooks: seq<seq<MutationHook<F>>>, i: nat, m: nat, s: State<F>)
    returns (up: seq<Event<F>>, down: seq<Event<F>>)
    requires StoreContract(c) && AllBuildersValid(hooks) && i < |hooks|
    requires BuildersLawful(hooks, ONCE)
    requires Fits(s, |hooks|) && SpecsBuilt(s, i)
    ensures Nested(s, Mutate(c, hooks, i)(m, s).0, up, down, i, |hooks|)
    decreases |hooks| - i, 2
  {
    var n := |hooks|;
    var law := HookLaw<F>(i, ONCE);
    HookLawOrdered<F>(i, ONCE);
    var inner: Mutator<F> := (m: nat, s: State<F>) => Inner(c, hooks, i, m, s);
    var site := FoldAround(hooks[i], law, inner, m, s);
    var t := Mutate(c, hooks, i)(m, s).0;
    if site.NoCall? {
      up, down := t.trace[|s.trace|..], [];
      CoreOfHooks(up);
    } else {
      var s1 := site.before;
      up, down := InnerNested(c, hooks, i, site.arg, s1);
      var (s2, o) := inner(site.arg, s1);
      if o.Panicked? {
        down := HooksAround(s, s1, s2, s2, up, down, i, n);
      } else {
        down := HooksAround(s, s1, s2, t, up, down, i, n);
      }
      up := s1.trace[|s.trace|..] + up;
    }
  }

  // ---- After a successful save ----

  /** The outermost builder, not before `low`, whose mutation is builder j's mutation. */
  ghost function Outermost(current: seq<nat>, low: nat, j: nat): (k: nat)
    requires low <= j < |current|
    ensures low <= k <= j && current[k] == current[j]
    ensures forall l :: low <= l < k ==> current[l] != current[j]
    decreases j - low
  {
    if current[low] == current[j] then low else Outermost(current, low + 1, j)
  }

  /** Spec j carries the id and the body of the row that was inserted for it; an id the
      database chose is not zero. */
  ghost predicate SpecStored<F>(sp: Option<Spec<F>>, row: Row<F>) {
    && sp.Some? && !sp.value.id.Unset? && sp.value.id.v == row.id && sp.value.body == row.body
    && (sp.value.id.FromDatabase? ==> row.id != 0)
  }

  /** The database fills an id that was not set and leaves the rest of a spec alone. */
  ghost predicate IdFilled<F>(before: Option<Spec<F>>, after: Option<Spec<F>>) {
    before.Some? && after.Some? && after.value.body == before.value.body &&
    if before.value.id.Unset? then after.value.id.FromDatabase? else after.value.id == before.value.id
  }

  /** Builder j has a node, which holds its row if hooks do not edit nodes. Its mutation is
      done and, if hooks set no id after an answer, points at the node of the outermost
      builder that shares this mutation. */
  ghost predicate NodeSaved<F>(p: Promise, t: State<F>, row: Row<F>, low: nat, j: nat)
    requires low <= j < |t.current| == |t.nodes|
  {
    && t.nodes[j].Some? && t.nodes[j].value < |t.objs|
    && (p.nodes ==> t.objs[t.nodes[j].value] == Node(row.id, row.body))
    && t.current[j] in t.muts && t.muts[t.current[j]].done
    && (p.ids ==>
          var k := Outermost(t.current, low, j);
          t.nodes[k].Some? && t.muts[t.current[j]].id == NodeId(t.nodes[k].value))
  }

  /** Node objects made after state s, in builder order. */
  ghost predicate FreshNodes<F>(s: State<F>, nodes: seq<Option<nat>>, i: nat) {
    && (forall j :: i <= j < |nodes| ==> nodes[j].Some? && |s.objs| <= nodes[j].value)
    && (forall j, k :: i <= j < k < |nodes| ==> nodes[j].value < nodes[k].value)
  }

  ghost predicate Saved<F>(p: Promise, s: State<F>, t: State<F>, added: seq<Row<F>>, i: nat, n: nat) {
    && KeepsOuter(s, t, i, n) && (p.nodes ==> s.objs <= t.objs)
    && |added| == n && t.rows == s.rows + added
    && (forall j :: 0 <= j < n ==> SpecStored(t.specs[j], added[j]))
    && (forall j :: 0 <= j < i ==> IdFilled(s.specs[j], t.specs[j]))
    && FreshNodes(s, t.nodes, i)
    && (forall j :: i <= j < n ==> NodeSaved(p, t, added[j], i, j))
  }

  lemma InsertSaves<F(!new)>(c: Setup<F>, p: Promise, s: State<F>, n: nat) returns (added: seq<Row<F>>)
    requires StoreContract(c) && Fits(s, n) && SpecsBuilt(s, n)
    requires Insert(c, s).1.Returned? && Insert(c, s).1.r.Ok?
    ensures Saved(p, s, Insert(c, s).0, added, n, n)
  {
    var b := Values(s.specs);
    var ids := c.insert(s.rows, b).value;
    added := RowsOf(ids, b);
    var t := Insert(c, s).0;
    forall j | 0 <= j < n
      ensures SpecStored(t.specs[j], added[j]) && IdFilled(s.specs[j], t.specs[j])
    {
      assert b[j] == s.specs[j].value;
    }
  }

  /** Writing back builder i's id keeps what holds of the deeper builders. */
  lemma CloseKeepsDeeper<F>(p: Promise, s: State<F>, t: State<F>, row: Row<F>, i: nat, m: nat, j: nat, r: nat)
    requires i < j < |s.current| == |s.nodes| && t.current == s.current && t.nodes == s.nodes
    requires s.current[i] == m && s.nodes[i] == Some(r) && NodeSaved(p, s, row, i + 1, j) && r != s.nodes[j].value
    requires |t.objs| == |s.objs| && forall k :: 0 <= k < |s.objs| && k != r ==> t.objs[k] == s.objs[k]
    requires m in s.muts && t.muts == s.muts[m := s.muts[m].(id := NodeId(r), done := true)]
    ensures NodeSaved(p, t, row, i, j)
  {
  }

  /** What writing back builder i's id changes: its node and its mutation. */
  lemma CloseWrites<F>(
    back: bool, p: Promise, s: State<F>, i: nat, m: nat, below: (State<F>, Outcome<Result>), added: seq<Row<F>>, n: nat)
    requires i < n && Fits(s, n) && m in s.muts && SpecsBuilt(s, i)
    requires Saved(p, HandOver(s, i, m), below.0, added, i + 1, n)
    requires Close(back, n, i, m, below).1.Returned? && Close(back, n, i, m, below).1.r.Ok?
    ensures var s2, t, r := below.0, Close(back, n, i, m, below).0, |s.objs|;
      && t == s2.(objs := t.objs, muts := t.muts)
      && r < |s2.objs| == |t.objs| && s2.nodes[i] == Some(r) && s2.current[i] == m
      && (forall k :: 0 <= k < |s2.objs| && k != r ==> t.objs[k] == s2.objs[k])
      && (p.nodes ==> s.objs <= t.objs && t.objs[r] == Node(added[i].id, added[i].body))
      && m in s2.muts && t.muts == s2.muts[m := s2.muts[m].(id := NodeId(r), done := true)]
  {
    HandOverKeeps(s, i, m, n);
    var s1, s2 := HandOver(s, i, m), below.0;
    var r := |s.objs|;
    assert s1.objs == s.objs + [s1.objs[r]] && (p.nodes ==> s2.objs[r] == s1.objs[r]);
    assert s2.nodes[i] == Some(r) && s2.current[i] == m;
    assert IdFilled(s1.specs[i], s2.specs[i]) && SpecStored(s2.specs[i], added[i]);
    var m1 := s2.muts[m := s2.muts[m].(id := NodeId(r))];
    assert m1[m := m1[m].(done := true)] == s2.muts[m := s2.muts[m].(id := NodeId(r), done := true)];
  }

  lemma CloseSaves<F>(
    back: bool, p: Promise, s: State<F>, i: nat, m: nat, below: (State<F>, Outcome<Result>), added: seq<Row<F>>, n: nat)
    requires i < n && Fits(s, n) && m in s.muts && SpecsBuilt(s, i)
    requires Saved(p, HandOver(s, i, m), below.0, added, i + 1, n)
    requires Close(back, n, i, m, below).1.Returned? && Close(back, n, i, m, below).1.r.Ok?
    ensures Saved(p, s, Close(back, n, i, m, below).0, added, i, n)
  {
    HandOverKeeps(s, i, m, n);
    CloseKeeps(back, n, i, m, below);
    CloseWrites(back, p, s, i, m, below, added, n);
    var s2, t := below.0, Close(back, n, i, m, below).0;
    forall j | i <= j < n
      ensures NodeSaved(p, t, added[j], i, j)
    {
      if j > i {
        CloseKeepsDeeper(p, s2, t, added[j], i, m, j, |s.objs|);
      }
    }
  }

  lemma HooksAroundSaved<F>(
    p: Promise, s: State<F>, s1: State<F>, s2: State<F>, t: State<F>, added: seq<Row<F>>, i: nat, n: nat)
    requires HookMay(i, false, p.nodes, s, s1) && Saved(p, s1, s2, added, i, n) && HookMay(i, p.ids, p.nodes, s2, t)
    requires Fits(s, n)
    ensures Saved(p, s, t, added, i, n)
  {
    forall j | i <= j < n
      ensures NodeSaved(p, t, added[j], i, j)
    {
      assert NodeSaved(p, s2, added[j], i, j);
    }
  }

  lemma InnerOkMeansBelowOk<F(!new)>(c: Setup<F>, hooks: seq<seq<MutationHook<F>>>, i: nat, m: nat, s: State<F>)
    requires StoreContract(c) && AllBuildersValid(hooks) && i < |hooks|
    requires Fits(s, |hooks|) && SpecsBuilt(s, i)
    requires Inner(c, hooks, i, m, s).1.Returned? && Inner(c, hooks, i, m, s).1.r.Ok?
    ensures m in s.muts && ValidId(s.muts[m].id, s.objs)
    ensures var h := HandOver(s, i, m);
      && Fits(h, |hooks|) && SpecsBuilt(h, i + 1)
      && Below(c, hooks, i, h).1.Returned? && Below(c, hooks, i, h).1.r.Ok?
      && Inner(c, hooks, i, m, s) == Close(c.readsBack, |hooks|, i, m, Below(c, hooks, i, h))
  {
    HandOverKeeps(s, i, m, |hooks|);
  }

  lemma {:induction false} BelowSaves<F(!new)>(c: Setup<F>, hooks: seq<seq<MutationHook<F>>>, p: Promise, i: nat, s: State<F>)
    returns (added: seq<Row<F>>)
    requires StoreContract(c) && AllBuildersValid(hooks) && i < |hooks|
    requires BuildersLawful(hooks, p) && p.once && p.honest
    requires Fits(s, |hooks|) && SpecsBuilt(s, i + 1)
    requires Below(c, hooks, i, s).1.Returned? && Below(c, hooks, i, s).1.r.Ok?
    ensures Saved(p, s, Below(c, hooks, i, s).0, added, i + 1, |hooks|)
    decreases |hooks| - i, 0
  {
    if i + 1 < |hooks| {
      added := MutateSaves(c, hooks, p, i + 1, s.current[i + 1], s);
    } else {
      added := InsertSaves(c, p, s, |hooks|);
    }
  }

  lemma {:induction false} InnerSaves<F(!new)>(
    c: Setup<F>, hooks: seq<seq<MutationHook<F>>>, p: Promise, i: nat, m: nat, s: State<F>) returns (added: seq<Row<F>>)
    requires StoreContract(c) && AllBuildersValid(hooks) && i < |hooks|
    requires BuildersLawful(hooks, p) && p.once && p.honest
    requires Fits(s, |hooks|) && SpecsBuilt(s, i)
    requires Inner(c, hooks, i, m, s).1.Returned? && Inner(c, hooks, i, m, s).1.r.Ok?
    ensures Saved(p, s, Inner(c, hooks, i, m, s).0, added, i, |hooks|)
    decreases |hooks| - i, 1
  {
    InnerOkMeansBelowOk(c, hooks, i, m, s);
    var h := HandOver(s, i, m);
    added := BelowSaves(c, hooks, p, i, h);
    CloseSaves(c.readsBack, p, s, i, m, Below(c, hooks, i, h), added, |hooks|);
  }

  /** Hooks that call next at most once and report success only for its success: if builder
      i's mutator succeeds, every builder from i on has been saved. */
  lemma {:induction false} MutateSaves<F(!new)>(
    c: Setup<F>, hooks: seq<seq<MutationHook<F>>>, p: Promise, i: nat, m: nat, s: State<F>) returns (added: seq<Row<F>>)
    requires StoreContract(c) && AllBuildersValid(hooks) && i < |hooks|
    requires BuildersLawful(hooks, p) && p.once && p.honest
    requires Fits(s, |hooks|) && SpecsBuilt(s, i)
    requires Mutate(c, hooks, i)(m, s).1.Returned? && Mutate(c, hooks, i)(m, s).1.r.Ok?
    ensures Saved(p, s, Mutate(c, hooks, i)(m, s).0, added, i, |hooks|)
    decreases |hooks| - i, 2
  {
    HookLawOrdered<F>(i, p);
    var inner: Mutator<F> := (m: nat, s: State<F>) => Inner(c, hooks, i, m, s);
    var site := FoldAround(hooks[i], HookLaw<F>(i, p), inner, m, s);
    added := InnerSaves(c, hooks, p, i, site.arg, site.before);
    HooksAroundSaved(
      p, s, site.before, inner(site.arg, site.before).0, Mutate(c, hooks, i)(m, s).0, added, i, |hooks|);
  }

  // ---- What the answer says ----

  /** From builder i on, a row with id zero was stored. */
  ghost predicate ZeroRow<F>(before: seq<Row<F>>, after: seq<Row<F>>, i: nat, n: nat) {
    |after| == |before| + n && exists k :: |before| + i <= k < |after| && after[k].id == 0
  }

  /** An error means that nothing was stored, success that no row has an id of zero that
      stays an int, and a panic that one has. */
  ghost predicate Told<F>(back: bool, s: State<F>, end: (State<F>, Outcome<Result>), i: nat, n: nat) {
    match end.1
    case Panicked => !back && ZeroRow(s.rows, end.0.rows, i, n)
    case Returned(Err(_)) => end.0.rows == s.rows
    case Returned(Ok(_)) => |end.0.rows| == |s.rows| + n && (back || !ZeroRow(s.rows, end.0.rows, i, n))
  }

  lemma InsertTells<F(!new)>(c: Setup<F>, s: State<F>, n: nat)
    requires StoreContract(c) && Fits(s, n) && SpecsBuilt(s, n)
    ensures Told(c.readsBack, s, Insert(c, s), n, n)
  {
  }

  /** The end of builder i panics exactly when its own row has an id of zero that stays an int. */
  lemma CloseTells<F>(
    back: bool, p: Promise, s: State<F>, i: nat, m: nat, below: (State<F>, Outcome<Result>), added: seq<Row<F>>, n: nat)
    requires i < n && Fits(s, n) && m in s.muts && SpecsBuilt(s, i) && p.nodes
    requires Saved(p, HandOver(s, i, m), below.0, added, i + 1, n) && below.1.Returned? && below.1.r.Ok?
    ensures Close(back, n, i, m, below).0.rows == s.rows + added
    ensures Close(back, n, i, m, below).1.Panicked? <==> !back && added[i].id == 0
    ensures Close(back, n, i, m, below).1.Returned? ==> Close(back, n, i, m, below).1.r.Ok?
  {
    HandOverKeeps(s, i, m, n);
    var s1, s2, r := HandOver(s, i, m), below.0, |s.objs|;
    assert s2.nodes[i] == Some(r) && s2.objs[r] == s1.objs[r];
    assert IdFilled(s1.specs[i], s2.specs[i]) && SpecStored(s2.specs[i], added[i]);
    assert ValidId(s.muts[m].id, s.objs);
  }

  lemma ZeroRowStep<F>(before: seq<Row<F>>, added: seq<Row<F>>, i: nat, n: nat)
    requires i < n == |added|
    ensures ZeroRow(before, before + added, i, n) <==> ZeroRow(before, before + added, i + 1, n) || added[i].id == 0
  {
    assert (before + added)[|before| + i] == added[i];
  }

  lemma {:induction false} BelowTells<F(!new)>(c: Setup<F>, hooks: seq<seq<MutationHook<F>>>, p: Promise, i: nat, s: State<F>)
    requires StoreContract(c) && AllBuildersValid(hooks) && i < |hooks|
    requires BuildersLawful(hooks, p) && p.once && p.honest && p.loyal && p.nodes
    requires Fits(s, |hooks|) && SpecsBuilt(s, i + 1)
    ensures Told(c.readsBack, s, Below(c, hooks, i, s), i + 1, |hooks|)
    decreases |hooks| - i, 0
  {
    if i + 1 < |hooks| {
      MutateTells(c, hooks, p, i + 1, s.current[i + 1], s);
    } else {
      InsertTells(c, s, |hooks|);
    }
  }

  lemma {:induction false} InnerTells<F(!new)>(
    c: Setup<F>, hooks: seq<seq<MutationHook<F>>>, p: Promise, i: nat, m: nat, s: State<F>)
    requires StoreContract(c) && AllBuildersValid(hooks) && i < |hooks|
    requires BuildersLawful(hooks, p) && p.once && p.honest && p.loyal && p.nodes
    requires Fits(s, |hooks|) && SpecsBuilt(s, i)
    ensures Told(c.readsBack, s, Inner(c, hooks, i, m, s), i, |hooks|)
    decreases |hooks| - i, 1
  {
    var n := |hooks|;
    if m in s.muts && c.check(s.muts[s.current[i]].fields).None? {
      HandOverKeeps(s, i, m, n);
      var h := HandOver(s, i, m);
      var below := Below(c, hooks, i, h);
      BelowTells(c, hooks, p, i, h);
      if below.1.Returned? && below.1.r.Ok? {
        var added := BelowSaves(c, hooks, p, i, h);
        CloseTells(c.readsBack, p, s, i, m, below, added, n);
        ZeroRowStep(s.rows, added, i, n);
      }
    }
  }

  /** Hooks that call next at most once, report success exactly for its success and do not
      edit nodes: the answer of builder i's mutator tells what was stored. */
  lemma {:induction false} MutateTells<F(!new)>(
    c: Setup<F>, hooks: seq<seq<MutationHook<F>>>, p: Promise, i: nat, m: nat, s: State<F>)
    requires StoreContract(c) && AllBuildersValid(hooks) && i < |hooks|
    requires BuildersLawful(hooks, p) && p.once && p.honest && p.loyal && p.nodes
    requires Fits(s, |hooks|) && SpecsBuilt(s, i)
    ensures Told(c.readsBack, s, Mutate(c, hooks, i)(m, s), i, |hooks|)
    decreases |hooks| - i, 2
  {
    HookLawOrdered<F>(i, p);
    var inner: Mutator<F> := (m: nat, s: State<F>) => Inner(c, hooks, i, m, s);
    var site := FoldAround(hooks[i], HookLaw<F>(i, p), inner, m, s);
    if site.Call? {
      InnerTells(c, hooks, p, i, site.arg, site.before);
    }
  }
}
