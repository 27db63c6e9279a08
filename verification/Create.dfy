/**
 Creating one entity and creating many in bulk, as IncidentCreate and
 NotificationOutboxCreate do it. The two builders have the same shape, so the model is
 generic in the record F of settable fields.

 Mutations and nodes are objects: they are held in `muts` and `objs` and named by
 reference, so that a mutation's id can point into a node.
 */
module Create {
  import opened Wrappers
  import opened Middleware

  datatype OpKind = OpCreate | OpUpdate | OpUpdateOne | OpDelete | OpDeleteOne
  type Op = set<OpKind>

  /** A mutation's id: absent, given by the caller, or a pointer to a node's ID field. */
  datatype IdRef = NoId | Given(v: int) | NodeId(node: nat)

  datatype Mutation<F> = Mutation(fields: F, op: Op, id: IdRef, done: bool)
  datatype Node<F> = Node(id: int, body: F)

  /** spec.ID.Value: nil, an id given by the caller, or one chosen by the database. */
  datatype IdValue = Unset | FromCaller(v: int) | FromDatabase(v: int)
  datatype Spec<F> = Spec(id: IdValue, body: F)
  datatype Row<F> = Row(id: int, body: F)

  datatype Event<F> =
    | Hooked(owner: nat, tag: string)
    | Checked(builder: nat)
    | CheckFailed(builder: nat)
    | SpecBuilt(builder: nat)
    | Inserted(batch: seq<Spec<F>>)
    | InsertFailed

  datatype Error =
    | UnexpectedMutation
    | Validation(name: string)
    | StoreError
    | NotAllowed(op: Op)
    | UninitializedHook
    | UnexpectedNode
    | BuilderError
    | HookError(tag: string)

  datatype Value = NodeValue(node: nat) | OtherValue(tag: string)
  datatype Result = Ok(v: Value) | Err(e: Error)

  /** `current[i]` is builder i's mutation; `nodes` and `specs` are the slices of the save. */
  datatype State<F> = State(
    muts: map<nat, Mutation<F>>,
    objs: seq<Node<F>>,
    current: seq<nat>,
    nodes: seq<Option<nat>>,
    specs: seq<Option<Spec<F>>>,
    rows: seq<Row<F>>,
    trace: seq<Event<F>>)

  type Mutator<!F> = Handler<nat, State<F>, Result>
  type MutationHook<!F(!new)> = Hook<nat, State<F>, Result>

  /** What differs between entities, and the database's answer to an insert: the ids of
      the new rows, or nothing when the insert fails. `readsBack`: a batch insert replaces
      also the ids that the caller gave by what the database returns. */
  datatype Setup<!F> = Setup(
    defaults: F -> F,
    check: F -> Option<string>,
    insert: (seq<Row<F>>, seq<Spec<F>>) -> Option<seq<int>>,
    readsBack: bool)

  /** The store contract: one id per spec; an id that is set is kept, an assigned id is not zero. */
  ghost predicate StoreContract<F(!new)>(c: Setup<F>) {
    forall rows: seq<Row<F>>, specs: seq<Spec<F>> | c.insert(rows, specs).Some? ::
      var ids := c.insert(rows, specs).value;
      && |ids| == |specs|
      && forall k :: 0 <= k < |specs| ==>
        if specs[k].id.Unset? then ids[k] != 0 else ids[k] == specs[k].id.v
  }

  // ---- Pointers ----

  predicate ValidId<F>(id: IdRef, objs: seq<Node<F>>) {
    id.NodeId? ==> id.node < |objs|
  }

  predicate ValidIds<F>(s: State<F>) {
    forall m :: m in s.muts ==> ValidId(s.muts[m].id, s.objs)
  }

  /** All pointers and slice indices used by a save of n builders are in range. */
  predicate Fits<F>(s: State<F>, n: nat) {
    && |s.current| == |s.nodes| == |s.specs| == n
    && (forall j :: 0 <= j < n ==> s.current[j] in s.muts)
    && (forall j :: 0 <= j < n && s.nodes[j].Some? ==> s.nodes[j].value < |s.objs|)
    && ValidIds(s)
  }

  /** mutation.ID() */
  function IdOf<F>(s: State<F>, m: nat): Option<int>
    requires m in s.muts && ValidId(s.muts[m].id, s.objs)
  {
    match s.muts[m].id
    case NoId => None
    case Given(v) => Some(v)
    case NodeId(r) => Some(s.objs[r].id)
  }

  // ---- Steps shared by single and bulk save ----

  function Log<F>(s: State<F>, e: Event<F>): State<F> {
    s.(trace := s.trace + [e])
  }

  /** createSpec for builder i from mutation m: a fresh node object and a spec. */
  function BuildSpec<F>(s: State<F>, i: nat, m: nat): State<F>
    requires m in s.muts && ValidId(s.muts[m].id, s.objs)
    requires i < |s.nodes| == |s.specs|
  {
    var f := s.muts[m].fields;
    var (node, spec) := match IdOf(s, m)
      case None => (Node(0, f), Spec(Unset, f))
      case Some(v) => (Node(v, f), Spec(FromCaller(v), f));
    Log(s.(objs := s.objs + [node], nodes := s.nodes[i := Some(|s.objs|)], specs := s.specs[i := Some(spec)]),
        SpecBuilt(i))
  }

  function RowsOf<F>(ids: seq<int>, b: seq<Spec<F>>): (r: seq<Row<F>>)
    requires |ids| == |b|
    ensures |r| == |b| && forall k :: 0 <= k < |b| ==> r[k] == Row(ids[k], b[k].body)
  {
    seq(|b|, k requires 0 <= k < |b| => Row(ids[k], b[k].body))
  }

  function WithIds<F>(ids: seq<int>, b: seq<Spec<F>>): (r: seq<Option<Spec<F>>>)
    requires |ids| == |b|
    ensures |r| == |b|
    ensures forall k :: 0 <= k < |b| ==>
              r[k] == Some(if b[k].id.Unset? then b[k].(id := FromDatabase(ids[k])) else b[k])
  {
    seq(|b|, k requires 0 <= k < |b| => Some(if b[k].id.Unset? then b[k].(id := FromDatabase(ids[k])) else b[k]))
  }

  /** sqlgraph.BatchCreate, and sqlgraph.CreateNode when there is one spec. */
  function Insert<F(!new)>(c: Setup<F>, s: State<F>): (State<F>, Outcome<Result>)
    requires StoreContract(c)
  {
    if exists k :: 0 <= k < |s.specs| && s.specs[k].None? then (s, Panicked)
    else
      var b := Values(s.specs);
      match c.insert(s.rows, b)
      case None => (Log(s, InsertFailed), Returned(Err(StoreError)))
      case Some(ids) =>
        (Log(s.(rows := s.rows + RowsOf(ids, b), specs := WithIds(ids, b)), Inserted(b)), Returned(Ok(OtherValue("batch"))))
  }

  // ---- Single save: withHooks(ctx, sqlSave, mutation, hooks) ----

  /** The end of a single save: the id goes into the node when the database chose it. A
      caller's id is in the node already, whatever type the insert left it with. */
  function Record<F>(own: nat, below: (State<F>, Outcome<Result>)): (State<F>, Outcome<Result>) {
    var (s, o) := below;
    if o.Panicked? || o.r.Err? then below
    else if !Fits(s, 1) || own !in s.muts || s.nodes[0].None? || s.specs[0].None? then (s, Panicked)
    else
      var r, id := s.nodes[0].value, s.specs[0].value.id;
      var objs := if id.FromDatabase? then s.objs[r := s.objs[r].(id := id.v)] else s.objs;
      (s.(objs := objs, muts := s.muts[own := s.muts[own].(id := NodeId(r), done := true)]), Returned(Ok(NodeValue(r))))
  }

  /** sqlSave of a create builder whose mutation is `own`. Slot 0 of `nodes` and `specs`
      holds its local node and spec. */
  function SqlSave<F(!new)>(c: Setup<F>, own: nat, s: State<F>): (State<F>, Outcome<Result>)
    requires StoreContract(c)
  {
    if !Fits(s, 1) || own !in s.muts then (s, Panicked)
    else
      match c.check(s.muts[own].fields)
      case Some(name) => (Log(s, CheckFailed(0)), Returned(Err(Validation(name))))
      case None => Record(own, Insert(c, BuildSpec(Log(s, Checked(0)), 0, own)))
  }

  /** The innermost mutator of withHooks: overwrite the builder's mutation, then save. */
  function SaveBase<F(!new)>(c: Setup<F>, own: nat): Mutator<F>
    requires StoreContract(c)
  {
    (m: nat, s: State<F>) =>
      if m !in s.muts then (s, Returned(Err(UnexpectedMutation)))
      else SqlSave(c, own, s.(muts := s.muts[own := s.muts[m]]))
  }

  // ---- Bulk save ----

  /** The dynamic type of spec.ID.Value after a batch insert. The caller's id is an int, and
      becomes the database's int64 only if the insert reads all ids back. */
  predicate IsInt64(id: IdValue, readsBack: bool) {
    id.FromDatabase? || (id.FromCaller? && readsBack)
  }

  /** Writing the id back after the insert, and marking the mutation done. */
  function Finish<F>(readsBack: bool, i: nat, m: nat, s: State<F>): (State<F>, Outcome<Result>)
    requires i < |s.nodes| == |s.specs| && m in s.muts
    requires s.specs[i].Some? && s.nodes[i].Some? && s.nodes[i].value < |s.objs|
  {
    var r := s.nodes[i].value;
    var s1 := s.(muts := s.muts[m := s.muts[m].(id := NodeId(r))]);
    var id := s.specs[i].value.id;
    if !id.Unset? && s.objs[r].id == 0 && !IsInt64(id, readsBack) then (s1, Panicked)
    else
      var objs := if !id.Unset? && s.objs[r].id == 0 then s.objs[r := s.objs[r].(id := id.v)] else s.objs;
      (s1.(objs := objs, muts := s1.muts[m := s1.muts[m].(done := true)]), Returned(Ok(NodeValue(r))))
  }

  ghost predicate AllBuildersValid<F(!new)>(hooks: seq<seq<MutationHook<F>>>) {
    forall i :: 0 <= i < |hooks| ==> AllValid(hooks[i])
  }

  /** The state in which builder i hands over: checked, mutation taken, spec built. */
  function HandOver<F>(s: State<F>, i: nat, m: nat): State<F>
    requires m in s.muts && ValidId(s.muts[m].id, s.objs)
    requires i < |s.current| == |s.nodes| == |s.specs|
  {
    BuildSpec(Log(s, Checked(i)).(current := s.current[i := m]), i, m)
  }

  /** What builder i does with the answer from below. */
  function Close<F>(readsBack: bool, n: nat, i: nat, m: nat, below: (State<F>, Outcome<Result>)): (State<F>, Outcome<Result>)
    requires i < n
  {
    var (s, o) := below;
    if o.Panicked? || o.r.Err? then below
    else if !Fits(s, n) || m !in s.muts || s.nodes[i].None? || s.specs[i].None? then (s, Panicked)
    else Finish(readsBack, i, m, s)
  }

  /** Below builder i: builder i+1's mutator, or the batch insert when i is the last one. */
  function Below<F(!new)>(c: Setup<F>, hooks: seq<seq<MutationHook<F>>>, i: nat, s: State<F>)
    : (State<F>, Outcome<Result>)
    requires StoreContract(c) && AllBuildersValid(hooks) && i < |hooks| == |s.current|
    decreases |hooks| - i, 0
  {
    if i + 1 < |hooks| then Mutate(c, hooks, i + 1)(s.current[i + 1], s) else Insert(c, s)
  }

  /** The innermost mutator of builder i. The check reads the builder's mutation before
      the one that was passed down replaces it. */
  function Inner<F(!new)>(c: Setup<F>, hooks: seq<seq<MutationHook<F>>>, i: nat, m: nat, s: State<F>)
    : (State<F>, Outcome<Result>)
    requires StoreContract(c) && AllBuildersValid(hooks) && i < |hooks|
    decreases |hooks| - i, 1
  {
    if m !in s.muts then (s, Returned(Err(UnexpectedMutation)))
    else if !Fits(s, |hooks|) then (s, Panicked)
    else
      match c.check(s.muts[s.current[i]].fields)
      case Some(name) => (Log(s, CheckFailed(i)), Returned(Err(Validation(name))))
      case None => Close(c.readsBack, |hooks|, i, m, Below(c, hooks, i, HandOver(s, i, m)))
  }

  /** mutators[i]: builder i's hooks around its innermost mutator. */
  function Mutate<F(!new)>(c: Setup<F>, hooks: seq<seq<MutationHook<F>>>, i: nat): Mutator<F>
    requires StoreContract(c) && AllBuildersValid(hooks) && i < |hooks|
    decreases |hooks| - i, 2
  {
    Fold(hooks[i], (m: nat, s: State<F>) => Inner(c, hooks, i, m, s))
  }
}
