/**
 What holds of every single and every bulk save.
 */
module SaveLaws {
  import opened Wrappers
  import opened Middleware
  import opened Create
  import opened BulkCreate
  import opened Save

  ghost predicate Ready<F(!new)>(c: Setup<F>, hooks: seq<seq<MutationHook<F>>>, s: State<F>) {
    && StoreContract(c) && AllBuildersValid(hooks) && |s.current| == |hooks|
    && (forall j :: 0 <= j < |s.current| ==> s.current[j] in s.muts)
    && ValidIds(s)
  }

  lemma PreparedFits<F(!new)>(c: Setup<F>, hooks: seq<seq<MutationHook<F>>>, s: State<F>)
    requires Ready(c, hooks, s)
    ensures Fits(Prepared(c, s), |hooks|) && SpecsBuilt(Prepared(c, s), 0)
    ensures Prepared(c, s).trace == s.trace && Prepared(c, s).rows == s.rows
    ensures Prepared(c, s).current == s.current && Prepared(c, s).objs == s.objs
    ensures forall j :: 0 <= j < |hooks| ==> Prepared(c, s).specs[j].None?
  {
    var p := Prepared(c, s);
    forall m | m in p.muts
      ensures ValidId(p.muts[m].id, p.objs)
    {
      assert ValidId(s.muts[m].id, s.objs);
      DefaultedKeeps(c, FreshSlices(s), |s.current|, m);
    }
  }

  // ---- All or nothing ----

  /** A script holds at most one insert, as its last event, and then every check has passed
      and every spec has been built, in builder order. */
  lemma {:induction false} InsertIsLast<F>(es: seq<Event<F>>, i: nat, n: nat, k: nat)
    requires i <= n && Script(es, i, n) && k < |es| && (es[k].Inserted? || es[k].InsertFailed?)
    ensures k == |es| - 1 == 2 * (n - i)
    ensures forall j :: i <= j < n ==> es[2 * (j - i)] == Checked(j) && es[2 * (j - i) + 1] == SpecBuilt(j)
    decreases n - i
  {
    if i < n {
      InsertIsLast(es[2..], i + 1, n, k - 2);
      forall j | i < j < n
        ensures es[2 * (j - i)] == Checked(j) && es[2 * (j - i) + 1] == SpecBuilt(j)
      {
        assert es[2..][2 * (j - (i + 1))] == Checked(j) && es[2..][2 * (j - (i + 1)) + 1] == SpecBuilt(j);
      }
    }
  }

  lemma {:induction false} InsertedBatchSize<F>(es: seq<Event<F>>, i: nat, n: nat)
    requires i <= n && Script(es, i, n) && es != [] && es[|es| - 1].Inserted?
    ensures |es[|es| - 1].batch| == n
    decreases n - i
  {
    if i < n {
      InsertedBatchSize(es[2..], i + 1, n);
    }
  }

  lemma RowsAllOrNothing<F>(before: seq<Row<F>>, after: seq<Row<F>>, core: seq<Event<F>>, n: nat)
    requires RowsFollow(before, after, core) && Script(core, 0, n)
    ensures after == before || |after| == |before| + n
  {
    if core != [] && core[|core| - 1].Inserted? {
      InsertedBatchSize(core, 0, n);
    }
  }

  /** Hooks call next at most once: a bulk save runs the builders inwards and unwinds
      outwards, and stores all rows or none. */
  lemma BulkAllOrNothing<F(!new)>(c: Setup<F>, hooks: seq<seq<MutationHook<F>>>, s: State<F>)
    returns (up: seq<Event<F>>, down: seq<Event<F>>)
    requires Ready(c, hooks, s) && BuildersLawful(hooks, ONCE) && |hooks| > 0
    ensures BulkRun(c, hooks, s).0.trace == s.trace + up + down
    ensures WellNested(up, down, 0, |hooks|)
    ensures RowsFollow(s.rows, BulkRun(c, hooks, s).0.rows, Core(up))
    ensures var t := BulkRun(c, hooks, s).0; t.rows == s.rows || |t.rows| == |s.rows| + |hooks|
  {
    PreparedFits(c, hooks, s);
    var p := Prepared(c, s);
    up, down := MutateNested(c, hooks, 0, p.current[0], p);
    RowsAllOrNothing(s.rows, Mutate(c, hooks, 0)(p.current[0], p).0.rows, Core(up), |hooks|);
  }

  // ---- Ids ----

  /** Builder j's mutation is done. If hooks set no id after an answer, it points at the node
      of the outermost builder sharing it. If hooks do not edit nodes, the returned node is the
      new row. With both, the mutation's id is that of the outermost builder's row. */
  ghost predicate BuilderSaved<F>(p: Promise, t: State<F>, added: seq<Row<F>>, j: nat)
    requires j < |t.current| == |t.nodes| == |added|
  {
    && t.nodes[j].Some? && t.nodes[j].value < |t.objs|
    && t.current[j] in t.muts && t.muts[t.current[j]].done
    && var k := Outermost(t.current, 0, j);
       && t.nodes[k].Some? && t.nodes[k].value < |t.objs|
       && (p.nodes ==> t.objs[t.nodes[j].value] == Node(added[j].id, added[j].body))
       && (p.ids ==> t.muts[t.current[j]].id == NodeId(t.nodes[k].value))
       && (p.ids && p.nodes ==> IdOf(t, t.current[j]) == Some(added[k].id))
  }

  lemma NodeSavedId<F>(p: Promise, t: State<F>, added: seq<Row<F>>, j: nat)
    requires j < |t.current| == |t.nodes| == |added|
    requires forall k :: 0 <= k < |added| ==> NodeSaved(p, t, added[k], 0, k)
    ensures BuilderSaved(p, t, added, j)
  {
    assert NodeSaved(p, t, added[j], 0, j);
    var k := Outermost(t.current, 0, j);
    assert NodeSaved(p, t, added[k], 0, k);
  }

  /** Hooks call next at most once and report success only for its success: on success there
      is one new node and one new row per builder, in builder order, and every builder is
      saved as far as hooks leave ids and nodes alone. */
  lemma BulkSaves<F(!new)>(c: Setup<F>, hooks: seq<seq<MutationHook<F>>>, p: Promise, s: State<F>)
    returns (added: seq<Row<F>>)
    requires Ready(c, hooks, s) && BuildersLawful(hooks, p) && p.once && p.honest
    requires BulkRun(c, hooks, s).1.Returned? && BulkRun(c, hooks, s).1.r.Nodes?
    ensures BulkRun(c, hooks, s).1.r.nodes == BulkRun(c, hooks, s).0.nodes
    ensures BulkRun(c, hooks, s).0.rows == s.rows + added
    ensures |BulkRun(c, hooks, s).0.current| == |BulkRun(c, hooks, s).0.nodes| == |hooks| == |added|
    ensures FreshNodes(s, BulkRun(c, hooks, s).0.nodes, 0)
    ensures forall j :: 0 <= j < |hooks| ==> BuilderSaved(p, BulkRun(c, hooks, s).0, added, j)
  {
    PreparedFits(c, hooks, s);
    var q := Prepared(c, s);
    added := [];
    if |hooks| > 0 {
      added := MutateSaves(c, hooks, p, 0, q.current[0], q);
      var t := Mutate(c, hooks, 0)(q.current[0], q).0;
      forall j | 0 <= j < |hooks|
        ensures BuilderSaved(p, t, added, j)
      {
        NodeSavedId(p, t, added, j);
      }
    }
  }

  /** With hooks that also set no id after an answer and pass their own mutation on, and
      builders with distinct mutations, each mutation's id is its own node's id, whatever
      hooks do to nodes. */
  lemma BulkIds<F(!new)>(c: Setup<F>, hooks: seq<seq<MutationHook<F>>>, p: Promise, s: State<F>, j: nat)
    requires Ready(c, hooks, s) && BuildersLawful(hooks, p) && p.once && p.honest && p.ids && p.sameArg && j < |hooks|
    requires BulkRun(c, hooks, s).1.Returned? && BulkRun(c, hooks, s).1.r.Nodes?
    requires forall k :: 0 <= k < |hooks| && k != j ==> s.current[k] != s.current[j]
    ensures var t := BulkRun(c, hooks, s).0;
      && t.current == s.current && s.current[j] in t.muts && t.muts[s.current[j]].done
      && j < |t.nodes| && t.nodes[j].Some? && t.nodes[j].value < |t.objs|
      && ValidId(t.muts[s.current[j]].id, t.objs)
      && IdOf(t, s.current[j]) == Some(t.objs[t.nodes[j].value].id)
  {
    Weaken(hooks, p, SAME_ARG);
    var added := BulkSaves(c, hooks, p, s);
    BulkKeepsMutations(c, hooks, s);
    assert BuilderSaved(p, BulkRun(c, hooks, s).0, added, j);
  }

  // ---- What the answer says ----

  /** Hooks call next at most once, report success exactly for its success and do not edit
      nodes. Then an error means that no row was stored, success that all were, and the bulk
      panics exactly when a row was stored with an id of zero and ids are not read back. */
  lemma BulkAnswerTells<F(!new)>(c: Setup<F>, hooks: seq<seq<MutationHook<F>>>, p: Promise, s: State<F>)
    requires Ready(c, hooks, s) && BuildersLawful(hooks, p) && p.once && p.honest && p.loyal && p.nodes
    ensures var (t, o) := BulkRun(c, hooks, s);
      && (o.Returned? && o.r.Failed? ==> t.rows == s.rows)
      && (o.Returned? && o.r.Nodes? ==> |t.rows| == |s.rows| + |hooks|)
      && (o.Panicked? <==> !c.readsBack && ZeroRow(s.rows, t.rows, 0, |hooks|))
  {
    PreparedFits(c, hooks, s);
    if |hooks| > 0 {
      var q := Prepared(c, s);
      MutateTells(c, hooks, p, 0, q.current[0], q);
    }
  }

  // ---- Hooks that set ids ----

  /** SetID(v) on mutation m, and a line in the log. */
  function SetId<F>(owner: nat, m: nat, v: int): State<F> -> State<F> {
    (s: State<F>) =>
      if m in s.muts then Log(s, Hooked(owner, "SetID")).(muts := s.muts[m := s.muts[m].(id := Given(v))]) else s
  }

  function Note<F>(owner: nat, tag: string): State<F> -> State<F> {
    (s: State<F>) => Log(s, Hooked(owner, tag))
  }

  function StampingHook<F(!new)>(owner: nat, m: nat, v: int): MutationHook<F> {
    PassOn(SetId(owner, m, v), Note(owner, "after"), Err(HookError("no answer")))
  }

  lemma EffectsAllowed<F>(owner: nat, m: nat, v: int, tag: string, s: State<F>)
    ensures HookMay(owner, false, true, s, SetId(owner, m, v)(s))
    ensures HookMay(owner, true, true, s, Note(owner, tag)(s))
  {
    var t := SetId<F>(owner, m, v)(s);
    if ValidIds(s) {
      forall k | k in t.muts
        ensures ValidId(t.muts[k].id, t.objs)
      {
        assert ValidId(s.muts[k].id, s.objs);
      }
    }
  }

  /** A hook that sets an id, calls next, logs, and returns the answer keeps every law here. */
  lemma StampingHookIsLawful<F(!new)>(owner: nat, m: nat, v: int)
    ensures Valid(StampingHook<F>(owner, m, v))
    ensures Lawful(StampingHook<F>(owner, m, v), HookLaw(owner, Promise(true, true, true, true, true, true)))
  {
    var law := HookLaw<F>(owner, Promise(true, true, true, true, true, true));
    forall s: State<F>
      ensures law.before(s, SetId(owner, m, v)(s)) && law.after(s, Note(owner, "after")(s))
    {
      EffectsAllowed(owner, m, v, "after", s);
    }
    PassOnIsLawful<nat, State<F>, Result>(
      SetId(owner, m, v), Note(owner, "after"), Err(HookError("no answer")), law);
  }

  /** The same hook with its two effects exchanged: the id is set after the answer. */
  function LateStamp<F(!new)>(owner: nat, m: nat, v: int): MutationHook<F> {
    PassOn(Note(owner, "before"), SetId(owner, m, v), Err(HookError("no answer")))
  }

  lemma LateStampRuns<F(!new)>(c: Setup<F>, own: nat, v: int, s: State<F>)
    requires StoreContract(c) && AllBuildersValid([[LateStamp<F>(0, own, v)]])
    ensures var hooks := [[LateStamp<F>(0, own, v)]];
      var (t, o) := Inner(c, hooks, 0, own, Note<F>(0, "before")(s));
      Mutate(c, hooks, 0)(own, s) == (if o.Returned? then SetId<F>(0, own, v)(t) else t, o)
  {
    var h := LateStamp<F>(0, own, v);
    var inner: Mutator<F> := (m: nat, x: State<F>) => Inner(c, [[h]], 0, m, x);
    assert Mutate(c, [[h]], 0) == Fold([h], inner);
    assert [h][1..] == [] && Fold([h][1..], inner) == inner;
    assert h in [[h]][0] && Valid(h);
    PassOnRuns(Note<F>(0, "before"), SetId<F>(0, own, v), Err(HookError("no answer")), inner, own, s);
  }

  /** An id that was given is the id of the row. */
  lemma StoredUnderGivenId<F(!new)>(c: Setup<F>, h: State<F>)
    requires StoreContract(c) && |h.specs| == 1 && h.specs[0].Some?
    requires Insert(c, h).1.Returned? && Insert(c, h).1.r.Ok?
    ensures |Insert(c, h).0.rows| == |h.rows| + 1
    ensures h.specs[0].value.id.FromCaller? ==> Insert(c, h).0.rows[|h.rows|].id == h.specs[0].value.id.v
  {
    assert Values(h.specs) == [h.specs[0].value];
  }

  lemma LastBuilderSaves<F(!new)>(c: Setup<F>, hooks: seq<seq<MutationHook<F>>>, p: Promise, m: nat, s: State<F>)
    returns (row: Row<F>)
    requires StoreContract(c) && AllBuildersValid(hooks) && |hooks| == 1 && Fits(s, 1)
    requires Inner(c, hooks, 0, m, s).1.Returned? && Inner(c, hooks, 0, m, s).1.r.Ok?
    ensures Saved(p, s, Inner(c, hooks, 0, m, s).0, [row], 0, 1)
    ensures m in s.muts && m in Inner(c, hooks, 0, m, s).0.muts && ValidId(s.muts[m].id, s.objs)
    ensures IdOf(s, m).Some? ==> row.id == IdOf(s, m).value
  {
    InnerOkMeansBelowOk(c, hooks, 0, m, s);
    var h := HandOver(s, 0, m);
    var added := InsertSaves(c, p, h, 1);
    CloseSaves(c.readsBack, p, s, 0, m, Below(c, hooks, 0, h), added, 1);
    row := added[0];
    assert added == [row];
    assert IdOf(s, m).Some? ==> h.specs[0].value.id == FromCaller(IdOf(s, m).value);
    StoredUnderGivenId(c, h);
  }

  lemma LateStampEnds<F>(own: nat, v: int, s: State<F>, x: State<F>, row: Row<F>)
    requires Saved(NO_PROMISE.(nodes := true), s, x, [row], 0, 1) && own in x.muts
    ensures var t := SetId<F>(0, own, v)(x);
      && t.rows == s.rows + [row] && |t.nodes| == 1 && t.nodes[0].Some? && t.nodes[0].value < |t.objs|
      && t.objs[t.nodes[0].value].id == row.id
      && own in t.muts && t.muts[own].id == Given(v)
      && (IdOf(t, own) == Some(t.objs[t.nodes[0].value].id) <==> v == row.id)
  {
    assert NodeSaved(NO_PROMISE.(nodes := true), x, row, 0, 0) by {
      assert [row][0] == row;
    }
  }

  /** A builder whose hook sets the id late: the node has the row's id, which is the caller's
      where one was given, and the mutation the id of the hook. The two are the same exactly
      when the hook happened to set the id the row got. */
  lemma LateStampBreaksIds<F(!new)>(c: Setup<F>, own: nat, v: int, s: State<F>) returns (row: Row<F>)
    requires StoreContract(c) && Fits(s, 1) && s.current == [own]
    requires AllBuildersValid([[LateStamp<F>(0, own, v)]])
    requires var o := Mutate(c, [[LateStamp<F>(0, own, v)]], 0)(own, s).1; o.Returned? && o.r.Ok?
    ensures var t := Mutate(c, [[LateStamp<F>(0, own, v)]], 0)(own, s).0;
      && t.rows == s.rows + [row] && |t.nodes| == 1 && t.nodes[0].Some? && t.nodes[0].value < |t.objs|
      && t.objs[t.nodes[0].value].id == row.id
      && own in t.muts && t.muts[own].id == Given(v)
      && (IdOf(t, own) == Some(t.objs[t.nodes[0].value].id) <==> v == row.id)
    ensures own in s.muts && ValidId(s.muts[own].id, s.objs) && (IdOf(s, own).Some? ==> row.id == IdOf(s, own).value)
  {
    LateStampRuns(c, own, v, s);
    assert own == s.current[0];
    var hooks: seq<seq<MutationHook<F>>> := [[LateStamp(0, own, v)]];
    var s1 := Note<F>(0, "before")(s);
    row := LastBuilderSaves(c, hooks, NO_PROMISE.(nodes := true), own, s1);
    LateStampEnds(own, v, s1, Inner(c, hooks, 0, own, s1).0, row);
  }

  ghost predicate Implies(p: Promise, q: Promise) {
    && (q.ids ==> p.ids) && (q.nodes ==> p.nodes) && (q.once ==> p.once)
    && (q.honest ==> p.honest) && (q.loyal ==> p.loyal) && (q.sameArg ==> p.sameArg)
  }

  lemma {:induction false} WeakenHook<F(!new)>(h: MutationHook<F>, i: nat, p: Promise, q: Promise)
    requires Lawful(h, HookLaw(i, p)) && Implies(p, q)
    ensures Lawful(h, HookLaw(i, q))
    decreases h
  {
    match h
    case Body(_) =>
    case If(hk, _) => WeakenHook(hk, i, p, q);
    case Chained(hs) =>
      forall x | x in hs
        ensures Lawful(x, HookLaw(i, q))
      {
        WeakenHook(x, i, p, q);
      }
  }

  /** A law with fewer promises follows from one with more. */
  lemma Weaken<F(!new)>(hooks: seq<seq<MutationHook<F>>>, p: Promise, q: Promise)
    requires BuildersLawful(hooks, p) && Implies(p, q)
    ensures BuildersLawful(hooks, q)
  {
    forall i | 0 <= i < |hooks|
      ensures AllLawful(hooks[i], HookLaw(i, q))
    {
      forall h | h in hooks[i]
        ensures Lawful(h, HookLaw(i, q))
      {
        WeakenHook(h, i, p, q);
      }
    }
  }

  // ---- Every stored row was checked ----

  ghost predicate Passed<F>(c: Setup<F>, sp: Spec<F>) {
    c.check(sp.body).None?
  }

  /** Every batch that reached the store holds only specs whose fields passed the check. */
  ghost predicate StoredPassed<F>(c: Setup<F>, es: seq<Event<F>>) {
    forall k, j :: 0 <= k < |es| && es[k].Inserted? && 0 <= j < |es[k].batch| ==> Passed(c, es[k].batch[j])
  }

  ghost predicate CheckedOnly<F>(c: Setup<F>, ms: seq<nat>, s: State<F>) {
    && s.current == ms
    && (forall j :: 0 <= j < |s.specs| && s.specs[j].Some? ==> Passed(c, s.specs[j].value))
    && StoredPassed(c, s.trace)
  }

  lemma InsertChecked<F(!new)>(c: Setup<F>, ms: seq<nat>, s: State<F>)
    requires StoreContract(c) && CheckedOnly(c, ms, s)
    ensures CheckedOnly(c, ms, Insert(c, s).0)
  {
  }

  /** No hook passes another mutation, so each builder keeps its own. */
  ghost predicate Inv<F>(c: Setup<F>, checked: bool, ms: seq<nat>, s: State<F>) {
    s.current == ms && (checked ==> CheckedOnly(c, ms, s))
  }

  lemma HandOverChecked<F>(c: Setup<F>, checked: bool, ms: seq<nat>, i: nat, s: State<F>)
    requires Inv(c, checked, ms, s) && i < |ms| && ms[i] in s.muts && Fits(s, |ms|)
    requires c.check(s.muts[ms[i]].fields).None? && ValidId(s.muts[ms[i]].id, s.objs)
    ensures Inv(c, checked, ms, HandOver(s, i, ms[i]))
  {
  }

  lemma CloseChecked<F>(c: Setup<F>, checked: bool, ms: seq<nat>, i: nat, m: nat, below: (State<F>, Outcome<Result>))
    requires Inv(c, checked, ms, below.0) && i < |ms|
    ensures Inv(c, checked, ms, Close(c.readsBack, |ms|, i, m, below).0)
  {
  }

  lemma {:induction false} BelowChecked<F(!new)>(
    c: Setup<F>, hooks: seq<seq<MutationHook<F>>>, checked: bool, ms: seq<nat>, i: nat, s: State<F>)
    requires StoreContract(c) && AllBuildersValid(hooks) && i < |hooks| == |ms|
    requires BuildersLawful(hooks, SAME_ARG) && Inv(c, checked, ms, s)
    ensures Inv(c, checked, ms, Below(c, hooks, i, s).0)
    decreases |hooks| - i, 0
  {
    if i + 1 < |hooks| {
      MutateChecked(c, hooks, checked, ms, i + 1, s);
    } else if checked {
      InsertChecked(c, ms, s);
    }
  }

  lemma {:induction false} InnerChecked<F(!new)>(
    c: Setup<F>, hooks: seq<seq<MutationHook<F>>>, checked: bool, ms: seq<nat>, i: nat, s: State<F>)
    requires StoreContract(c) && AllBuildersValid(hooks) && i < |hooks| == |ms|
    requires BuildersLawful(hooks, SAME_ARG) && Inv(c, checked, ms, s)
    ensures Inv(c, checked, ms, Inner(c, hooks, i, ms[i], s).0)
    decreases |hooks| - i, 1
  {
    if ms[i] in s.muts && Fits(s, |hooks|) && c.check(s.muts[ms[i]].fields).None? {
      assert ValidId(s.muts[ms[i]].id, s.objs);
      var h := HandOver(s, i, ms[i]);
      HandOverChecked(c, checked, ms, i, s);
      BelowChecked(c, hooks, checked, ms, i, h);
      CloseChecked(c, checked, ms, i, ms[i], Below(c, hooks, i, h));
    }
  }

  lemma {:induction false} MutateChecked<F(!new)>(
    c: Setup<F>, hooks: seq<seq<MutationHook<F>>>, checked: bool, ms: seq<nat>, i: nat, s: State<F>)
    requires StoreContract(c) && AllBuildersValid(hooks) && i < |hooks| == |ms|
    requires BuildersLawful(hooks, SAME_ARG) && Inv(c, checked, ms, s)
    ensures Inv(c, checked, ms, Mutate(c, hooks, i)(ms[i], s).0)
    decreases |hooks| - i, 2
  {
    var inner: Mutator<F> := (m: nat, s: State<F>) => Inner(c, hooks, i, m, s);
    var inv := (x: State<F>) => Inv(c, checked, ms, x);
    forall b, x | inv(x) && b == ms[i]
      ensures inv(inner(b, x).0)
    {
      InnerChecked(c, hooks, checked, ms, i, x);
    }
    FoldKeeps(hooks[i], HookLaw(i, SAME_ARG), inv, ms[i], inner, s);
  }

  lemma BulkKeepsMutations<F(!new)>(c: Setup<F>, hooks: seq<seq<MutationHook<F>>>, s: State<F>)
    requires Ready(c, hooks, s) && BuildersLawful(hooks, SAME_ARG)
    ensures BulkRun(c, hooks, s).0.current == s.current
  {
    PreparedFits(c, hooks, s);
    if |hooks| > 0 {
      MutateChecked(c, hooks, false, s.current, 0, Prepared(c, s));
    }
  }

  /** Hooks pass their own mutation on, any number of times: a bulk save stores only rows
      whose fields passed the check. */
  lemma BulkStoresChecked<F(!new)>(c: Setup<F>, hooks: seq<seq<MutationHook<F>>>, s: State<F>)
    requires Ready(c, hooks, s) && BuildersLawful(hooks, SAME_ARG) && StoredPassed(c, s.trace)
    ensures StoredPassed(c, BulkRun(c, hooks, s).0.trace)
  {
    PreparedFits(c, hooks, s);
    if |hooks| > 0 {
      MutateChecked(c, hooks, true, s.current, 0, Prepared(c, s));
    }
  }

  // ---- Which mutation a stored row comes from ----

  /** If the run from s to t stored rows, the first i of them are those of the specs that
      were there at its start. */
  ghost predicate RowsOfSpecs<F>(s: State<F>, t: State<F>, i: nat) {
    t.rows != s.rows ==>
      && i <= |s.specs| && |t.rows| == |s.rows| + |s.specs|
      && forall j :: 0 <= j < i ==> s.specs[j].Some? && t.rows[|s.rows| + j].body == s.specs[j].value.body
  }

  lemma InsertRows<F(!new)>(c: Setup<F>, s: State<F>)
    requires StoreContract(c)
    ensures RowsOfSpecs(s, Insert(c, s).0, |s.specs|)
  {
    if forall k :: 0 <= k < |s.specs| ==> s.specs[k].Some? {
      var b := Values(s.specs);
      if c.insert(s.rows, b).Some? {
        var added := RowsOf(c.insert(s.rows, b).value, b);
        assert Insert(c, s).0.rows == s.rows + added;
      }
    }
  }

  lemma CloseRows<F>(back: bool, n: nat, i: nat, m: nat, below: (State<F>, Outcome<Result>))
    requires i < n
    ensures Close(back, n, i, m, below).0.rows == below.0.rows
  {
  }

  lemma HandOverRows<F>(s: State<F>, i: nat, m: nat, n: nat, t: State<F>)
    requires Fits(s, n) && i < n && m in s.muts && ValidId(s.muts[m].id, s.objs)
    requires RowsOfSpecs(HandOver(s, i, m), t, i + 1)
    ensures RowsOfSpecs(s, t, i)
    ensures t.rows != s.rows ==> |t.rows| == |s.rows| + n && t.rows[|s.rows| + i].body == s.muts[m].fields
  {
    var h := HandOver(s, i, m);
    assert h.rows == s.rows && |h.specs| == n;
    assert h.specs[i].Some? && h.specs[i].value.body == s.muts[m].fields;
    assert forall j :: 0 <= j < i ==> h.specs[j] == s.specs[j];
  }

  /** Hooks call next at most once: row i of a batch comes from the mutation that builder i's
      hooks passed on, while builder i's own mutation at that time is the one that passed the
      check. So a stored row is unchecked exactly when the passed mutation would have failed. */
  lemma {:induction false} StoredRowIsThePassedOne<F(!new)>(
    c: Setup<F>, hooks: seq<seq<MutationHook<F>>>, i: nat, m: nat, s: State<F>)
    requires StoreContract(c) && AllBuildersValid(hooks) && i < |hooks|
    requires BuildersLawful(hooks, ONCE)
    ensures RowsOfSpecs(s, Inner(c, hooks, i, m, s).0, i)
    ensures var t := Inner(c, hooks, i, m, s).0;
      t.rows != s.rows ==>
        && Fits(s, |hooks|) && m in s.muts && |t.rows| == |s.rows| + |hooks|
        && c.check(s.muts[s.current[i]].fields).None?
        && t.rows[|s.rows| + i].body == s.muts[m].fields
    decreases |hooks| - i, 1
  {
    if m in s.muts && Fits(s, |hooks|) && c.check(s.muts[s.current[i]].fields).None? {
      assert ValidId(s.muts[m].id, s.objs);
      var below := Below(c, hooks, i, HandOver(s, i, m));
      BelowRows(c, hooks, i, HandOver(s, i, m));
      HandOverRows(s, i, m, |hooks|, below.0);
      CloseRows(c.readsBack, |hooks|, i, m, below);
      assert Inner(c, hooks, i, m, s).0.rows == below.0.rows;
    }
  }

  lemma {:induction false} BelowRows<F(!new)>(c: Setup<F>, hooks: seq<seq<MutationHook<F>>>, i: nat, s: State<F>)
    requires StoreContract(c) && AllBuildersValid(hooks) && i < |hooks| == |s.current| == |s.specs|
    requires BuildersLawful(hooks, ONCE)
    ensures RowsOfSpecs(s, Below(c, hooks, i, s).0, i + 1)
    decreases |hooks| - i, 0
  {
    if i + 1 < |hooks| {
      MutateRows(c, hooks, i + 1, s.current[i + 1], s);
    } else {
      InsertRows(c, s);
    }
  }

  lemma {:induction false} MutateRows<F(!new)>(
    c: Setup<F>, hooks: seq<seq<MutationHook<F>>>, i: nat, m: nat, s: State<F>)
    requires StoreContract(c) && AllBuildersValid(hooks) && i < |hooks|
    requires BuildersLawful(hooks, ONCE)
    ensures RowsOfSpecs(s, Mutate(c, hooks, i)(m, s).0, i)
    decreases |hooks| - i, 2
  {
    HookLawOrdered<F>(i, ONCE);
    var inner: Mutator<F> := (m: nat, s: State<F>) => Inner(c, hooks, i, m, s);
    var site := FoldAround(hooks[i], HookLaw<F>(i, ONCE), inner, m, s);
    if site.Call? {
      StoredRowIsThePassedOne(c, hooks, i, site.arg, site.before);
    }
  }

  lemma BuiltIsChecked<F>(c: Setup<F>, own: nat, s: State<F>)
    requires Fits(s, 1) && own in s.muts && c.check(s.muts[own].fields).None? && StoredPassed(c, s.trace)
    ensures ValidId(s.muts[own].id, s.objs)
    ensures CheckedOnly(c, s.current, BuildSpec(Log(s, Checked(0)), 0, own))
  {
    assert ValidId(s.muts[own].id, s.objs);
  }

  lemma SqlSaveChecked<F(!new)>(c: Setup<F>, own: nat, s: State<F>)
    requires StoreContract(c) && StoredPassed(c, s.trace)
    ensures StoredPassed(c, SqlSave(c, own, s).0.trace)
  {
    if Fits(s, 1) && own in s.muts && c.check(s.muts[own].fields).None? {
      BuiltIsChecked(c, own, s);
      InsertChecked(c, s.current, BuildSpec(Log(s, Checked(0)), 0, own));
    }
  }

  lemma SaveBaseChecked<F(!new)>(c: Setup<F>, own: nat, m: nat, s: State<F>)
    requires StoreContract(c) && StoredPassed(c, s.trace)
    ensures StoredPassed(c, SaveBase(c, own)(m, s).0.trace)
  {
    if m in s.muts {
      SqlSaveChecked(c, own, s.(muts := s.muts[own := s.muts[m]]));
    }
  }

  /** A single save checks and stores the mutation that was passed on. */
  lemma SingleRowIsThePassedOne<F(!new)>(c: Setup<F>, own: nat, m: nat, s: State<F>)
    requires StoreContract(c)
    ensures var t := SaveBase(c, own)(m, s).0;
      t.rows != s.rows ==>
        && m in s.muts && |t.rows| == |s.rows| + 1 && t.rows[|s.rows|].body == s.muts[m].fields
        && c.check(s.muts[m].fields).None?
  {
    if m in s.muts {
      var x := s.(muts := s.muts[own := s.muts[m]]);
      if Fits(x, 1) && c.check(x.muts[own].fields).None? {
        assert ValidId(x.muts[own].id, x.objs);
        var h := BuildSpec(Log(x, Checked(0)), 0, own);
        InsertRows(c, h);
        assert SqlSave(c, own, x).0.rows == Insert(c, h).0.rows;
      }
    }
  }

  /** A single save stores only checked rows whatever mutation its hooks pass on. */
  lemma SingleStoresChecked<F(!new)>(c: Setup<F>, own: nat, hooks: seq<MutationHook<F>>, s: State<F>)
    requires StoreContract(c) && AllValid(hooks) && AllLawful(hooks, HookLaw(0, NO_PROMISE))
    requires StoredPassed(c, s.trace)
    ensures StoredPassed(c, SingleRun(c, own, hooks, s).0.trace)
  {
    var inv := (x: State<F>) => StoredPassed(c, x.trace);
    var base := SaveBase(c, own);
    forall b, x | inv(x)
      ensures inv(base(b, x).0)
    {
      SaveBaseChecked(c, own, b, x);
    }
    FoldKeeps(hooks, HookLaw(0, NO_PROMISE), inv, own, base, s);
  }
}
