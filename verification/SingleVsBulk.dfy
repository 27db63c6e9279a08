/**
 A bulk of one builder against a single save: where they agree, and the two inputs that
 tell them apart.
 */
module SingleVsBulk {
  import opened Wrappers
  import opened Middleware
  import opened Create
  import opened BulkCreate
  import opened Save
  import opened SaveLaws

  /** A save of one builder, whose mutation is `own`. */
  ghost predicate Sole<F>(own: nat, s: State<F>) {
    Fits(s, 1) && s.current == [own] && own in s.muts
  }

  /** ... and whose id, if it has one, is not zero, unless batch inserts read ids back. */
  ghost predicate OneBuilder<F>(back: bool, own: nat, s: State<F>) {
    Sole(own, s) && (back || IdOf(s, own) != Some(0))
  }

  lemma InsertOne<F(!new)>(c: Setup<F>, own: nat, s: State<F>)
    requires StoreContract(c) && Sole(own, s) && s.specs[0].Some?
    ensures var (t, o) := Insert(c, s);
      && Fits(t, 1) && t.muts == s.muts && t.objs == s.objs && t.nodes == s.nodes && t.current == s.current
      && o.Returned? && t.specs[0].Some?
      && (o.r.Ok? <==> c.insert(s.rows, [s.specs[0].value]).Some?)
      && (o.r.Ok? && s.specs[0].value.id.Unset? ==>
            t.specs[0].value.id.FromDatabase? && t.specs[0].value.id.v != 0)
      && (o.r.Ok? && !s.specs[0].value.id.Unset? ==>
            t.specs[0] == s.specs[0] && t.rows == s.rows + [Row(s.specs[0].value.id.v, s.specs[0].value.body)])
      && (o.r.Ok? ==> o.r.v == OtherValue("batch"))
      && (o.r.Ok? ==> |t.rows| == |s.rows| + 1 && t.rows[|s.rows|].body == s.specs[0].value.body)
      && (o.r.Err? ==> t.specs == s.specs)
  {
    assert forall m :: m in s.muts ==> ValidId(s.muts[m].id, s.objs);
    var b := Values(s.specs);
    assert b == [s.specs[0].value];
    if c.insert(s.rows, b).Some? && !s.specs[0].value.id.Unset? {
      assert RowsOf(c.insert(s.rows, b).value, b) == [Row(s.specs[0].value.id.v, s.specs[0].value.body)];
    }
  }

  /** The innermost step of a lone builder. */
  lemma SoleInner<F(!new)>(c: Setup<F>, hooks: seq<MutationHook<F>>, own: nat, m: nat, s: State<F>)
    requires StoreContract(c) && AllBuildersValid([hooks]) && Sole(own, s) && m in s.muts
    requires c.check(s.muts[own].fields).None?
    ensures ValidId(s.muts[m].id, s.objs)
    ensures Inner(c, [hooks], 0, m, s) == Close(c.readsBack, 1, 0, m, Insert(c, HandOver(s, 0, m)))
    ensures m == own ==> SaveBase(c, own)(own, s) == Record(own, Insert(c, HandOver(s, 0, own)))
  {
    assert ValidId(s.muts[m].id, s.objs);
    assert s.(muts := s.muts[own := s.muts[own]]) == s;
    assert Log(s, Checked(0)).(current := s.current[0 := own]) == Log(s, Checked(0));
  }

  /** Both ends of a save write the same, unless the caller gave the id zero. */
  lemma EndsAgree<F>(back: bool, own: nat, s: State<F>)
    requires Sole(own, s) && s.nodes[0].Some? && s.specs[0].Some?
    requires s.specs[0].value.id.FromDatabase? ==> s.specs[0].value.id.v != 0 && s.objs[s.nodes[0].value].id == 0
    requires s.specs[0].value.id.FromCaller? ==>
               s.objs[s.nodes[0].value].id == s.specs[0].value.id.v && (back || s.specs[0].value.id.v != 0)
    requires !s.specs[0].value.id.Unset?
    ensures Record(own, (s, Returned(Ok(OtherValue("batch")))))
         == Close(back, 1, 0, own, (s, Returned(Ok(OtherValue("batch")))))
    ensures OneBuilder(back, own, Record(own, (s, Returned(Ok(OtherValue("batch"))))).0)
  {
    var r := s.nodes[0].value;
    var m1 := s.muts[own := s.muts[own].(id := NodeId(r))];
    assert m1[own := m1[own].(done := true)] == s.muts[own := s.muts[own].(id := NodeId(r), done := true)];
    var e := Record(own, (s, Returned(Ok(OtherValue("batch"))))).0;
    assert forall m :: m in e.muts && m != own ==> ValidId(s.muts[m].id, s.objs);
    if s.specs[0].value.id.FromCaller? && s.objs[r].id == 0 {
      assert s.objs[r := s.objs[r].(id := 0)] == s.objs;
    }
  }

  lemma StoredAgrees<F(!new)>(c: Setup<F>, own: nat, s: State<F>)
    requires StoreContract(c) && OneBuilder(c.readsBack, own, s)
    ensures var below := Insert(c, HandOver(s, 0, own));
      && Record(own, below) == Close(c.readsBack, 1, 0, own, below)
      && OneBuilder(c.readsBack, own, Record(own, below).0)
  {
    HandOverKeeps(s, 0, own, 1);
    var h := HandOver(s, 0, own);
    InsertOne(c, own, h);
    if Insert(c, h).1.r.Ok? {
      EndsAgree(c.readsBack, own, Insert(c, h).0);
    }
  }

  /** The innermost steps agree and keep the builder's mutation. */
  lemma BaseAgrees<F(!new)>(c: Setup<F>, hooks: seq<MutationHook<F>>, own: nat, s: State<F>)
    requires StoreContract(c) && AllBuildersValid([hooks]) && OneBuilder(c.readsBack, own, s)
    ensures SaveBase(c, own)(own, s) == Inner(c, [hooks], 0, own, s)
    ensures OneBuilder(c.readsBack, own, SaveBase(c, own)(own, s).0)
  {
    if c.check(s.muts[own].fields).None? {
      SoleInner(c, hooks, own, own, s);
      StoredAgrees(c, own, s);
    } else {
      assert s.(muts := s.muts[own := s.muts[own]]) == s;
    }
  }

  /** A hook of the builder may do anything a hook may do, but not leave the id at zero where
      that matters, and passes its own mutation on. */
  ghost function OneLaw<F(!new)>(back: bool, own: nat, once: bool, answers: (Option<Result>, Result) -> bool)
    : Law<State<F>, Result>
  {
    var may := (s: State<F>, t: State<F>) =>
      HookMay(0, false, false, s, t) && (OneBuilder(back, own, s) ==> OneBuilder(back, own, t));
    Law(may, may, once, answers, true)
  }

  /** A success of a lone builder's save is its node. */
  ghost predicate NodeAnswered<F>(end: (State<F>, Outcome<Result>)) {
    end.1.Returned? && end.1.r.Ok? ==>
      |end.0.nodes| == 1 && end.0.nodes[0].Some? && end.1.r.v == NodeValue(end.0.nodes[0].value)
  }

  lemma RecordReturns<F>(own: nat, below: (State<F>, Outcome<Result>))
    requires Sole(own, below.0) && below.0.nodes[0].Some? && below.0.specs[0].Some? && below.1.Returned?
    ensures Record(own, below).1.Returned? && Sole(own, Record(own, below).0) && NodeAnswered(Record(own, below))
  {
    var s, e := below.0, Record(own, below).0;
    assert forall m :: m in e.muts && m != own ==> ValidId(s.muts[m].id, s.objs);
  }

  lemma SaveBaseReturns<F(!new)>(c: Setup<F>, own: nat, s: State<F>)
    requires StoreContract(c) && Sole(own, s)
    ensures SaveBase(c, own)(own, s).1.Returned? && Sole(own, SaveBase(c, own)(own, s).0)
    ensures NodeAnswered(SaveBase(c, own)(own, s))
  {
    if c.check(s.muts[own].fields).None? {
      SoleInner(c, [], own, own, s);
      HandOverKeeps(s, 0, own, 1);
      InsertOne(c, own, HandOver(s, 0, own));
      RecordReturns(own, Insert(c, HandOver(s, 0, own)));
    } else {
      assert s.(muts := s.muts[own := s.muts[own]]) == s;
    }
  }

  /** Such hooks cannot tell a single save from a bulk of one: same state, trace, rows and
      outcome. The callers then differ in one point, the single save insists on a node as
      the value. */
  lemma OneBuilderBulkIsSingle<F(!new)>(c: Setup<F>, hooks: seq<MutationHook<F>>, own: nat, s: State<F>)
    requires StoreContract(c) && AllValid(hooks) && AllBuildersValid([hooks]) && OneBuilder(c.readsBack, own, s)
    requires AllLawful(hooks, OneLaw(c.readsBack, own, false, AnyAnswer<Result>))
    ensures Mutate(c, [hooks], 0)(own, s) == Fold(hooks, SaveBase(c, own))(own, s)
    ensures Mutate(c, [hooks], 0)(own, s).1.Returned?
  {
    var law := OneLaw<F>(c.readsBack, own, false, AnyAnswer<Result>);
    var base, inner: Mutator<F> := SaveBase(c, own), (m: nat, x: State<F>) => Inner(c, [hooks], 0, m, x);
    var inv := (x: State<F>) => OneBuilder(c.readsBack, own, x);
    forall b, x | inv(x) && (law.sameArg ==> b == own)
      ensures base(b, x) == inner(b, x) && inv(base(b, x).0) && base(b, x).1.Returned?
    {
      BaseAgrees(c, hooks, own, x);
      SaveBaseReturns(c, own, x);
    }
    FoldSwap(hooks, law, inv, own, base, inner, s);
    FoldEnds(hooks, law, inv, (x: State<F>) => false, own, base, s);
    assert Mutate(c, [hooks], 0) == Fold(hooks, inner);
  }

  // ---- Save against CreateBulk.Save ----

  /** Both saves begin alike. */
  lemma PreparedOne<F(!new)>(c: Setup<F>, own: nat, hooks: seq<MutationHook<F>>, s: State<F>)
    requires Ready(c, [hooks], s) && s.current == [own]
    ensures Prepared(c, s) == WithDefaults(c, FreshSlices(s), own) && Sole(own, Prepared(c, s))
  {
    PreparedFits(c, [hooks], s);
    var f := FreshSlices(s);
    assert Defaulted(c, f, 0) == f;
    assert Defaulted(c, f, 1) == WithDefaults(c, f, own);
  }

  /** Save and a bulk of one, from their defaults to their answers: the same state, neither
      panics, and the same error; a bulk that succeeds goes with a save that does or that
      was given something else than a node by its hooks. */
  lemma BulkOfOneIsSave<F(!new)>(c: Setup<F>, hooks: seq<MutationHook<F>>, own: nat, s: State<F>)
    requires Ready(c, [hooks], s) && s.current == [own] && AllValid(hooks)
    requires OneBuilder(c.readsBack, own, Prepared(c, s))
    requires AllLawful(hooks, OneLaw(c.readsBack, own, false, AnyAnswer<Result>))
    ensures var (one, bulk) := (SaveOne(c, own, hooks, s), BulkRun(c, [hooks], s));
      && bulk.0 == one.0 && bulk.1.Returned? && one.1.Returned?
      && (bulk.1.r.Failed? ==> one.1.r == Err(bulk.1.r.e))
      && (bulk.1.r.Nodes? ==> one.1.r == Err(UnexpectedNode) || (one.1.r.Ok? && one.1.r.v.NodeValue?))
  {
    PreparedOne(c, own, hooks, s);
    OneBuilderBulkIsSingle(c, hooks, own, Prepared(c, s));
  }

  lemma OneLawOrdered<F(!new)>(back: bool, own: nat)
    ensures Ordered(OneLaw<F>(back, own, true, PassedOn<Result>))
  {
    HookMayPreorder<F>(0, false, false);
    var may := (s: State<F>, t: State<F>) => HookMay(0, false, false, s, t);
    var law := OneLaw<F>(back, own, true, PassedOn<Result>);
    forall s: State<F>, t, u | law.before(s, t) && law.before(t, u)
      ensures law.before(s, u)
    {
      assert may(s, t) && may(t, u);
    }
    forall s: State<F>
      ensures law.before(s, s)
    {
      assert may(s, s);
    }
    assert Preorder(law.before);
  }

  lemma AnswerSurvives<F>(x: (State<F>, Outcome<Result>), y: (State<F>, Outcome<Result>))
    requires NodeAnswered(x) && HookMay(0, false, false, x.0, y.0) && y.1 == x.1
    ensures NodeAnswered(y)
  {
  }

  lemma ChainAnswersNode<F(!new)>(c: Setup<F>, hooks: seq<MutationHook<F>>, own: nat, s: State<F>)
    requires StoreContract(c) && AllValid(hooks) && OneBuilder(c.readsBack, own, s)
    requires AllLawful(hooks, OneLaw(c.readsBack, own, true, PassedOn<Result>))
    ensures NodeAnswered(Fold(hooks, SaveBase(c, own))(own, s))
  {
    var law := OneLaw<F>(c.readsBack, own, true, PassedOn<Result>);
    OneLawOrdered<F>(c.readsBack, own);
    var base := SaveBase(c, own);
    var site := FoldAround(hooks, law, base, own, s);
    if Fold(hooks, base)(own, s).1.Returned? {
      SaveBaseReturns(c, own, site.before);
      AnswerSurvives(base(own, site.before), Fold(hooks, base)(own, s));
    }
  }

  lemma {:induction false} ForgetAnswer<F(!new)>(h: MutationHook<F>, back: bool, own: nat)
    requires Lawful(h, OneLaw(back, own, true, PassedOn<Result>))
    ensures Lawful(h, OneLaw(back, own, false, AnyAnswer<Result>))
    decreases h
  {
    match h
    case Body(_) =>
    case If(hk, _) => ForgetAnswer(hk, back, own);
    case Chained(hs) =>
      forall x | x in hs
        ensures Lawful(x, OneLaw(back, own, false, AnyAnswer<Result>))
      {
        ForgetAnswer(x, back, own);
      }
  }

  lemma ForgetAnswers<F(!new)>(hooks: seq<MutationHook<F>>, back: bool, own: nat)
    requires AllLawful(hooks, OneLaw(back, own, true, PassedOn<Result>))
    ensures AllLawful(hooks, OneLaw(back, own, false, AnyAnswer<Result>))
  {
    forall h | h in hooks
      ensures Lawful(h, OneLaw(back, own, false, AnyAnswer<Result>))
    {
      ForgetAnswer(h, back, own);
    }
  }

  /** Hooks that also call next once and return its answer: Save and the bulk of one succeed
      together, and the one node of the bulk is the node of the single save. */
  lemma PassedOnNodeIsTheSame<F(!new)>(c: Setup<F>, hooks: seq<MutationHook<F>>, own: nat, s: State<F>)
    requires Ready(c, [hooks], s) && s.current == [own] && AllValid(hooks)
    requires OneBuilder(c.readsBack, own, Prepared(c, s))
    requires AllLawful(hooks, OneLaw(c.readsBack, own, true, PassedOn<Result>))
    ensures var (one, bulk) := (SaveOne(c, own, hooks, s), BulkRun(c, [hooks], s));
      && one.1.Returned? && bulk.1.Returned? && bulk.0 == one.0 && (one.1.r.Ok? <==> bulk.1.r.Nodes?)
      && (one.1.r.Ok? ==>
            |bulk.1.r.nodes| == 1 && bulk.1.r.nodes[0].Some? && one.1.r.v == NodeValue(bulk.1.r.nodes[0].value))
  {
    PreparedOne(c, own, hooks, s);
    ForgetAnswers(hooks, c.readsBack, own);
    OneBuilderBulkIsSingle(c, hooks, own, Prepared(c, s));
    ChainAnswersNode(c, hooks, own, Prepared(c, s));
  }

  lemma StampKeepsOne<F>(back: bool, own: nat, v: int, s: State<F>)
    requires v != 0
    ensures HookMay(0, false, false, s, SetId(0, own, v)(s)) && HookMay(0, false, false, s, Note(0, "after")(s))
    ensures OneBuilder(back, own, s) ==> OneBuilder(back, own, SetId(0, own, v)(s))
    ensures OneBuilder(back, own, s) ==> OneBuilder(back, own, Note(0, "after")(s))
  {
    EffectsAllowed(0, own, v, "after", s);
    if OneBuilder(back, own, s) {
      var t, u := SetId<F>(0, own, v)(s), Note<F>(0, "after")(s);
      assert Fits(t, 1) && t.muts[own].id == Given(v);
      assert Fits(u, 1) && IdOf(u, own) == IdOf(s, own);
    }
  }

  /** A hook that sets a nonzero id on the way in is one of them. */
  lemma StampingHookIsOne<F(!new)>(back: bool, own: nat, v: int)
    requires v != 0
    ensures Valid(StampingHook<F>(0, own, v))
    ensures Lawful(StampingHook<F>(0, own, v), OneLaw(back, own, true, PassedOn<Result>))
  {
    var law := OneLaw<F>(back, own, true, PassedOn<Result>);
    forall s: State<F>
      ensures law.before(s, SetId(0, own, v)(s)) && law.after(s, Note(0, "after")(s))
    {
      StampKeepsOne(back, own, v, s);
    }
    PassOnIsLawful<nat, State<F>, Result>(SetId(0, own, v), Note(0, "after"), Err(HookError("no answer")), law);
  }

  // ---- An id of zero ----

  /** After the insert of a spec with a caller's id of zero that is still an int: only the
      bulk's end panics. */
  lemma ZeroIdEnds<F>(own: nat, s: State<F>)
    requires Sole(own, s) && s.nodes[0].Some? && s.specs[0].Some?
    requires s.specs[0].value.id == FromCaller(0) && s.objs[s.nodes[0].value].id == 0
    ensures Record(own, (s, Returned(Ok(OtherValue("batch"))))).1 == Returned(Ok(NodeValue(s.nodes[0].value)))
    ensures Close(false, 1, 0, own, (s, Returned(Ok(OtherValue("batch"))))).1.Panicked?
    ensures Close(false, 1, 0, own, (s, Returned(Ok(OtherValue("batch"))))).0.rows == s.rows
    ensures Close(false, 1, 0, own, (s, Returned(Ok(OtherValue("batch"))))).0.trace == s.trace
  {
  }

  /** The spec a save builds from mutation m. */
  function SpecOf<F>(s: State<F>, m: nat): Spec<F>
    requires m in s.muts && ValidId(s.muts[m].id, s.objs)
  {
    Spec(match IdOf(s, m) case None => Unset case Some(v) => FromCaller(v), s.muts[m].fields)
  }

  /** The database takes valid fields under an id of zero, and the insert does not read ids back. */
  ghost predicate StoresZero<F>(c: Setup<F>, own: nat, s: State<F>)
    requires Sole(own, s) && ValidId(s.muts[own].id, s.objs)
  {
    && !c.readsBack && IdOf(s, own) == Some(0)
    && c.check(s.muts[own].fields).None? && c.insert(s.rows, [SpecOf(s, own)]).Some?
  }

  /** Then the single save goes through, and the bulk of one panics after storing the row. */
  lemma ZeroIdTellsThemApart<F(!new)>(c: Setup<F>, hooks: seq<MutationHook<F>>, s: State<F>, own: nat)
    requires StoreContract(c) && AllBuildersValid([hooks]) && Sole(own, s) && ValidId(s.muts[own].id, s.objs)
    requires StoresZero(c, own, s)
    ensures SaveBase(c, own)(own, s).1.Returned? && SaveBase(c, own)(own, s).1.r.Ok?
    ensures Inner(c, [hooks], 0, own, s).1.Panicked?
    ensures Inner(c, [hooks], 0, own, s).0.rows == s.rows + [Row(0, s.muts[own].fields)]
  {
    SoleInner(c, hooks, own, own, s);
    HandOverKeeps(s, 0, own, 1);
    var h := HandOver(s, 0, own);
    assert h.specs[0].value == SpecOf(s, own);
    InsertOne(c, own, h);
    ZeroIdEnds(own, Insert(c, h).0);
  }

  lemma RefusedAgrees<F(!new)>(c: Setup<F>, hooks: seq<MutationHook<F>>, s: State<F>, own: nat)
    requires StoreContract(c) && AllBuildersValid([hooks]) && Sole(own, s) && c.check(s.muts[own].fields).Some?
    ensures SaveBase(c, own)(own, s) == Inner(c, [hooks], 0, own, s)
  {
    assert s.(muts := s.muts[own := s.muts[own]]) == s;
  }

  lemma ErrorPassesThrough<F>(back: bool, own: nat, below: (State<F>, Outcome<Result>))
    requires below.1.Returned? && below.1.r.Err?
    ensures Record(own, below) == below == Close(back, 1, 0, own, below)
  {
  }

  lemma InsertOneFails<F(!new)>(c: Setup<F>, h: State<F>, sp: Spec<F>)
    requires StoreContract(c) && h.specs == [Some(sp)] && c.insert(h.rows, [sp]).None?
    ensures Insert(c, h).1 == Returned(Err(StoreError))
  {
    assert Values(h.specs) == [sp];
  }

  lemma HandsOverItsSpec<F>(s: State<F>, own: nat)
    requires Sole(own, s) && ValidId(s.muts[own].id, s.objs)
    ensures HandOver(s, 0, own).specs == [Some(SpecOf(s, own))] && HandOver(s, 0, own).rows == s.rows
  {
  }

  /** The database refuses the row: both saves pass the error on. */
  lemma UnstoredAgrees<F(!new)>(c: Setup<F>, hooks: seq<MutationHook<F>>, s: State<F>, own: nat)
    requires StoreContract(c) && AllBuildersValid([hooks]) && Sole(own, s) && ValidId(s.muts[own].id, s.objs)
    requires c.check(s.muts[own].fields).None? && c.insert(s.rows, [SpecOf(s, own)]).None?
    ensures SaveBase(c, own)(own, s) == Inner(c, [hooks], 0, own, s)
  {
    SoleInner(c, hooks, own, own, s);
    var h := HandOver(s, 0, own);
    HandsOverItsSpec(s, own);
    InsertOneFails(c, h, SpecOf(s, own));
    ErrorPassesThrough(c.readsBack, own, Insert(c, h));
  }

  /** The innermost steps differ exactly when valid fields are stored under an id of zero. */
  lemma BasesAgreeExactly<F(!new)>(c: Setup<F>, hooks: seq<MutationHook<F>>, s: State<F>, own: nat)
    requires StoreContract(c) && AllBuildersValid([hooks]) && Sole(own, s)
    ensures ValidId(s.muts[own].id, s.objs)
    ensures SaveBase(c, own)(own, s) == Inner(c, [hooks], 0, own, s) <==> !StoresZero(c, own, s)
  {
    assert ValidId(s.muts[own].id, s.objs);
    if c.readsBack || IdOf(s, own) != Some(0) {
      BaseAgrees(c, hooks, own, s);
    } else if c.check(s.muts[own].fields).Some? {
      RefusedAgrees(c, hooks, s, own);
    } else if c.insert(s.rows, [SpecOf(s, own)]).Some? {
      ZeroIdTellsThemApart(c, hooks, s, own);
    } else {
      UnstoredAgrees(c, hooks, s, own);
    }
  }

  /** Some insert stored a spec with a caller's id of zero. */
  ghost predicate ZeroStored<F>(es: seq<Event<F>>) {
    exists k, j :: 0 <= k < |es| && es[k].Inserted? && 0 <= j < |es[k].batch| && es[k].batch[j].id == FromCaller(0)
  }

  /** A bulk run from s on: a zero id that stays an int has been stored, or has not been. */
  ghost predicate ZeroSince<F>(zero: bool, c: Setup<F>, s: State<F>, x: State<F>) {
    s.trace <= x.trace && (zero <==> !c.readsBack && ZeroStored(x.trace[|s.trace|..]))
  }

  lemma ZeroStoredConcat<F>(xs: seq<Event<F>>, ys: seq<Event<F>>)
    ensures ZeroStored(xs + ys) <==> ZeroStored(xs) || ZeroStored(ys)
  {
    var all := xs + ys;
    assert forall k :: 0 <= k < |xs| ==> all[k] == xs[k];
    assert forall k :: 0 <= k < |ys| ==> all[|xs| + k] == ys[k];
    assert forall k :: |xs| <= k < |all| ==> all[k] == ys[k - |xs|];
  }

  lemma ZeroSinceStep<F>(c: Setup<F>, s: State<F>, x: State<F>, y: State<F>, es: seq<Event<F>>)
    requires ZeroSince(false, c, s, x) && y.trace == x.trace + es
    ensures ZeroSince(!c.readsBack && ZeroStored(es), c, s, y)
  {
    assert y.trace[|s.trace|..] == x.trace[|s.trace|..] + es;
    ZeroStoredConcat(x.trace[|s.trace|..], es);
  }

  lemma InnerTrace<F(!new)>(c: Setup<F>, hooks: seq<MutationHook<F>>, s: State<F>, own: nat, other: nat)
    requires StoreContract(c) && Sole(own, s) && other in s.muts && AllBuildersValid([hooks])
    requires c.check(s.muts[own].fields).None?
    ensures ValidId(s.muts[other].id, s.objs)
    ensures Inner(c, [hooks], 0, other, s).0.trace == s.trace + [Checked(0), SpecBuilt(0)]
      + [if c.insert(s.rows, [SpecOf(s, other)]).Some? then Inserted([SpecOf(s, other)]) else InsertFailed]
  {
    SoleInner(c, hooks, own, other, s);
    HandOverKeeps(s, 0, other, 1);
    var h := HandOver(s, 0, other);
    assert h.specs[0].value == SpecOf(s, other);
    assert Values(h.specs) == [SpecOf(s, other)];
    CloseKeeps(c.readsBack, 1, 0, other, Insert(c, h));
  }

  /** What one call of the innermost step of a bulk of one stores. */
  lemma InnerStoresZero<F(!new)>(c: Setup<F>, hooks: seq<MutationHook<F>>, own: nat, x: State<F>)
    returns (es: seq<Event<F>>)
    requires StoreContract(c) && AllBuildersValid([hooks]) && Sole(own, x) && ValidId(x.muts[own].id, x.objs)
    ensures Inner(c, [hooks], 0, own, x).0.trace == x.trace + es
    ensures StoresZero(c, own, x) <==> !c.readsBack && ZeroStored(es)
  {
    if c.check(x.muts[own].fields).Some? {
      es := [CheckFailed(0)];
    } else {
      InnerTrace(c, hooks, x, own, own);
      var inserted := c.insert(x.rows, [SpecOf(x, own)]).Some?;
      es := [Checked(0), SpecBuilt(0)] + [if inserted then Inserted([SpecOf(x, own)]) else InsertFailed];
      assert inserted ==> es[2].batch[0] == SpecOf(x, own);
    }
  }

  /** When it panics, and that it is the single save's step otherwise. */
  lemma InnerPanicsExactly<F(!new)>(c: Setup<F>, hooks: seq<MutationHook<F>>, own: nat, x: State<F>)
    requires StoreContract(c) && AllBuildersValid([hooks]) && Sole(own, x)
    ensures ValidId(x.muts[own].id, x.objs)
    ensures Inner(c, [hooks], 0, own, x).1.Panicked? <==> StoresZero(c, own, x)
    ensures SameOrCut(true, SaveBase(c, own)(own, x), Inner(c, [hooks], 0, own, x))
    ensures Sole(own, SaveBase(c, own)(own, x).0) && SaveBase(c, own)(own, x).1.Returned?
  {
    BasesAgreeExactly(c, hooks, x, own);
    SaveBaseReturns(c, own, x);
    if StoresZero(c, own, x) {
      ZeroIdTellsThemApart(c, hooks, x, own);
    }
  }

  lemma SameUnlessItPanics<F(!new)>(c: Setup<F>, hooks: seq<MutationHook<F>>, s: State<F>, own: nat)
    requires StoreContract(c) && AllValid(hooks) && AllBuildersValid([hooks]) && Sole(own, s)
    requires AllLawful(hooks, HookLaw(0, SAME_ARG))
    ensures SameOrCut(true, Fold(hooks, SaveBase(c, own))(own, s), Mutate(c, [hooks], 0)(own, s))
    ensures Fold(hooks, SaveBase(c, own))(own, s).1.Returned?
  {
    var law := HookLaw<F>(0, SAME_ARG);
    var base, inner: Mutator<F> := SaveBase(c, own), (m: nat, x: State<F>) => Inner(c, [hooks], 0, m, x);
    var sole, none := (x: State<F>) => Sole(own, x), (x: State<F>) => false;
    forall b, x | sole(x) && (law.sameArg ==> b == own)
      ensures SameOrCut(true, base(b, x), inner(b, x)) && sole(base(b, x).0) && EndsIn(sole, none, base(b, x))
    {
      InnerPanicsExactly(c, hooks, own, x);
    }
    FoldSwapOrCut(hooks, law, sole, true, own, base, inner, s);
    FoldEnds(hooks, law, sole, none, own, base, s);
    assert Mutate(c, [hooks], 0) == Fold(hooks, inner);
  }

  lemma BulkPanicsExactly<F(!new)>(c: Setup<F>, hooks: seq<MutationHook<F>>, s: State<F>, own: nat)
    requires StoreContract(c) && AllValid(hooks) && AllBuildersValid([hooks]) && Sole(own, s)
    requires AllLawful(hooks, HookLaw(0, SAME_ARG))
    ensures ZeroSince(Mutate(c, [hooks], 0)(own, s).1.Panicked?, c, s, Mutate(c, [hooks], 0)(own, s).0)
  {
    var law := HookLaw<F>(0, SAME_ARG);
    var inner: Mutator<F> := (m: nat, x: State<F>) => Inner(c, [hooks], 0, m, x);
    var inv := (x: State<F>) => Sole(own, x) && ZeroSince(false, c, s, x);
    var bad := (x: State<F>) => ZeroSince(true, c, s, x);
    forall b, x | inv(x) && (law.sameArg ==> b == own)
      ensures EndsIn(inv, bad, inner(b, x))
    {
      InnerPanicsExactly(c, hooks, own, x);
      var es := InnerStoresZero(c, hooks, own, x);
      ZeroSinceStep(c, s, x, inner(b, x).0, es);
    }
    forall x, y | inv(x) && HookMay(0, false, false, x, y)
      ensures inv(y)
    {
      assert y.trace == x.trace + y.trace[|x.trace|..];
      ZeroSinceStep(c, s, x, y, y.trace[|x.trace|..]);
    }
    assert s.trace[|s.trace|..] == [];
    FoldEnds(hooks, law, inv, bad, own, inner, s);
    assert Mutate(c, [hooks], 0) == Fold(hooks, inner);
  }

  /** Any hooks that pass their own mutation on, whatever ids they set and however often they
      call next: the single save never panics, and the bulk of one equals it exactly when it
      did not store an id of zero that stays an int; then it panics. */
  lemma SavesAgreeExactly<F(!new)>(c: Setup<F>, hooks: seq<MutationHook<F>>, s: State<F>, own: nat)
    requires StoreContract(c) && AllValid(hooks) && AllBuildersValid([hooks]) && Sole(own, s)
    requires AllLawful(hooks, HookLaw(0, SAME_ARG))
    ensures var (one, bulk) := (Fold(hooks, SaveBase(c, own))(own, s), Mutate(c, [hooks], 0)(own, s));
      && one.1.Returned? && s.trace <= bulk.0.trace
      && (bulk == one <==> c.readsBack || !ZeroStored(bulk.0.trace[|s.trace|..]))
      && (bulk != one ==> bulk.1.Panicked?)
  {
    SameUnlessItPanics(c, hooks, s, own);
    BulkPanicsExactly(c, hooks, s, own);
  }

  // ---- A hook that passes another mutation ----

  /** A hook that calls next once, with mutation `other`, and returns its answer. */
  function Redirect<F(!new)>(other: nat): MutationHook<F> {
    Body(Program(1, (a: nat, s0: State<F>, hist: seq<Seen<State<F>, Result>>) =>
      if |hist| == 0 then CallNext(other)
      else if hist[0].Got? then Return(hist[0].r) else Return(Err(HookError("redirect")))))
  }

  lemma RedirectRuns<F(!new)>(other: nat, next: Mutator<F>, a: nat, s: State<F>)
    ensures Valid(Redirect<F>(other))
    ensures Fold([Redirect<F>(other)], next)(a, s) == next(other, s)
  {
    var h := Redirect<F>(other);
    assert [h][1..] == [];
    assert Fold([h][1..], next) == next;
    var (t, o) := next(other, s);
    if o.Returned? {
      var hist: seq<Seen<State<F>, Result>> := [] + [Got(t, o.r)];
      assert h.p.run(a, s, hist) == Return(o.r);
    }
  }

  lemma RedirectBase<F(!new)>(c: Setup<F>, hooks: seq<MutationHook<F>>, s: State<F>, own: nat, other: nat)
    requires StoreContract(c) && Sole(own, s) && other in s.muts && s.muts[other].id == NoId
    requires AllBuildersValid([hooks])
    requires c.check(s.muts[own].fields).None? && c.check(s.muts[other].fields).Some?
    requires c.insert(s.rows, [Spec(Unset, s.muts[other].fields)]).Some?
    ensures var t := Inner(c, [hooks], 0, other, s).0;
      |t.rows| == |s.rows| + 1 && t.rows[|s.rows|].body == s.muts[other].fields
    ensures SaveBase(c, own)(other, s).0.rows == s.rows
    ensures SaveBase(c, own)(other, s).1 == Returned(Err(Validation(c.check(s.muts[other].fields).value)))
  {
    SoleInner(c, hooks, own, other, s);
    HandOverKeeps(s, 0, other, 1);
    var h := HandOver(s, 0, other);
    assert h.specs[0].value == Spec(Unset, s.muts[other].fields);
    InsertOne(c, other, h);
    CloseKeeps(c.readsBack, 1, 0, other, Insert(c, h));
    var s' := s.(muts := s.muts[own := s.muts[other]]);
    assert forall m :: m in s'.muts && m != own ==> ValidId(s.muts[m].id, s.objs);
    assert Fits(s', 1);
  }

  /** Bulk: the check reads the builder's own mutation, the row comes from the one passed
      on, so fields that fail the check are stored. Single: they are not. */
  lemma RedirectEscapesBulkCheck<F(!new)>(c: Setup<F>, s: State<F>, own: nat, other: nat)
    requires StoreContract(c) && Sole(own, s) && other in s.muts && s.muts[other].id == NoId
    requires c.check(s.muts[own].fields).None? && c.check(s.muts[other].fields).Some?
    requires c.insert(s.rows, [Spec(Unset, s.muts[other].fields)]).Some?
    ensures Valid(Redirect<F>(other))
    ensures var t := Mutate(c, [[Redirect(other)]], 0)(own, s).0;
      |t.rows| == |s.rows| + 1 && t.rows[|s.rows|].body == s.muts[other].fields
    ensures SingleRun(c, own, [Redirect(other)], s).0.rows == s.rows
    ensures SingleRun(c, own, [Redirect(other)], s).1 == Returned(Err(Validation(c.check(s.muts[other].fields).value)))
  {
    var hooks: seq<MutationHook<F>> := [Redirect(other)];
    var inner: Mutator<F> := (m: nat, x: State<F>) => Inner(c, [hooks], 0, m, x);
    RedirectRuns(other, inner, own, s);
    RedirectRuns(other, SaveBase(c, own), own, s);
    assert Mutate(c, [hooks], 0) == Fold(hooks, inner);
    RedirectBase(c, hooks, s, own, other);
  }

  /** With such a hook a bulk of one stores unchecked fields exactly when its own mutation
      passes the check, the other one does not, and the database takes the row. */
  lemma RedirectExactly<F(!new)>(c: Setup<F>, s: State<F>, own: nat, other: nat)
    requires StoreContract(c) && Sole(own, s) && other in s.muts && StoredPassed(c, s.trace)
    ensures Valid(Redirect<F>(other)) && ValidId(s.muts[other].id, s.objs)
    ensures StoredPassed(c, Mutate(c, [[Redirect(other)]], 0)(own, s).0.trace)
       <==> !(c.check(s.muts[own].fields).None? && c.check(s.muts[other].fields).Some?
              && c.insert(s.rows, [SpecOf(s, other)]).Some?)
  {
    var hooks: seq<MutationHook<F>> := [Redirect(other)];
    var inner: Mutator<F> := (m: nat, x: State<F>) => Inner(c, [hooks], 0, m, x);
    RedirectRuns(other, inner, own, s);
    assert Mutate(c, [hooks], 0) == Fold(hooks, inner);
    if c.check(s.muts[own].fields).None? {
      InnerTrace(c, hooks, s, own, other);
      var inserted := c.insert(s.rows, [SpecOf(s, other)]).Some?;
      var e := if inserted then Inserted([SpecOf(s, other)]) else InsertFailed;
      var after := s.trace + [Checked(0), SpecBuilt(0)] + [e];
      assert forall k :: 0 <= k < |s.trace| ==> after[k] == s.trace[k];
      assert after[|s.trace| + 2] == e;
      assert inserted ==> e.batch[0] == SpecOf(s, other);
    }
  }

}
