/**
 Save of a create builder and of a bulk of them, and what holds of every call.
 */
module Save {
  import opened Wrappers
  import opened Middleware
  import opened Create

  // ---- The two operations ----

  /** builder.defaults() of the builder whose mutation is m. */
  function WithDefaults<F>(c: Setup<F>, s: State<F>, m: nat): State<F>
    requires m in s.muts
  {
    s.(muts := s.muts[m := s.muts[m].(fields := c.defaults(s.muts[m].fields))])
  }

  /** builder.defaults() of the first i builders, in order. */
  function Defaulted<F>(c: Setup<F>, s: State<F>, i: nat): (t: State<F>)
    requires i <= |s.current| && forall j :: 0 <= j < |s.current| ==> s.current[j] in s.muts
    ensures t == s.(muts := t.muts) && t.muts.Keys == s.muts.Keys
  {
    if i == 0 then s
    else
      var p := Defaulted(c, s, i - 1);
      WithDefaults(c, p, p.current[i - 1])
  }

  /** Defaults change nothing but fields, and only those of the builders' mutations. */
  lemma {:induction false} DefaultedKeeps<F>(c: Setup<F>, s: State<F>, i: nat, m: nat)
    requires i <= |s.current| && forall j :: 0 <= j < |s.current| ==> s.current[j] in s.muts
    requires m in s.muts
    ensures var t := Defaulted(c, s, i).muts;
      && t[m] == s.muts[m].(fields := t[m].fields)
      && ((forall j :: 0 <= j < i ==> s.current[j] != m) ==> t[m] == s.muts[m])
  {
    if i > 0 {
      DefaultedKeeps(c, s, i - 1, m);
    }
  }

  /** A mutation of one builder gets its defaults once. */
  lemma {:induction false} DefaultedOnce<F>(c: Setup<F>, s: State<F>, i: nat, j: nat)
    requires j < i <= |s.current| && forall k :: 0 <= k < |s.current| ==> s.current[k] in s.muts
    requires forall k :: 0 <= k < i && k != j ==> s.current[k] != s.current[j]
    ensures var m := s.current[j]; Defaulted(c, s, i).muts[m].fields == c.defaults(s.muts[m].fields)
  {
    if j == i - 1 {
      DefaultedKeeps(c, s, i - 1, s.current[j]);
    } else {
      DefaultedOnce(c, s, i - 1, j);
    }
  }

  /** The slices a bulk save starts with. */
  function FreshSlices<F>(s: State<F>): State<F> {
    s.(nodes := seq(|s.current|, _ => None), specs := seq(|s.current|, _ => None))
  }

  /** Fresh slices and every builder's defaults: the state before the first mutator runs. */
  function Prepared<F>(c: Setup<F>, s: State<F>): State<F>
    requires forall j :: 0 <= j < |s.current| ==> s.current[j] in s.muts
  {
    Defaulted(c, FreshSlices(s), |s.current|)
  }

  /** Before the first mutator runs, every builder's mutation has its defaults, once if no
      other builder shares it, and all other mutations are as they were. */
  lemma EveryBuilderGetsDefaults<F>(c: Setup<F>, s: State<F>, m: nat)
    requires m in s.muts && forall k :: 0 <= k < |s.current| ==> s.current[k] in s.muts
    ensures Prepared(c, s).muts.Keys == s.muts.Keys
    ensures forall j :: 0 <= j < |s.current| && s.current[j] == m &&
                        (forall k :: 0 <= k < |s.current| && k != j ==> s.current[k] != m) ==>
              Prepared(c, s).muts[m] == s.muts[m].(fields := c.defaults(s.muts[m].fields))
    ensures (forall k :: 0 <= k < |s.current| ==> s.current[k] != m) ==> Prepared(c, s).muts[m] == s.muts[m]
  {
    var start := FreshSlices(s);
    DefaultedKeeps(c, start, |s.current|, m);
    forall j | 0 <= j < |s.current| && s.current[j] == m && forall k :: 0 <= k < |s.current| && k != j ==> s.current[k] != m
      ensures Prepared(c, s).muts[m].fields == c.defaults(s.muts[m].fields)
    {
      DefaultedOnce(c, start, |s.current|, j);
    }
  }

  method RunDefaults<F>(c: Setup<F>, s: State<F>) returns (t: State<F>)
    requires forall j :: 0 <= j < |s.current| ==> s.current[j] in s.muts
    ensures t == Prepared(c, s)
  {
    var start := FreshSlices(s);
    t := start;
    for i := 0 to |start.current|
      invariant t == Defaulted(c, start, i)
    {
      t := WithDefaults(c, t, t.current[i]);
    }
  }

  datatype Answer = Nodes(nodes: seq<Option<nat>>) | Failed(e: Error)

  function BulkRun<F(!new)>(c: Setup<F>, hooks: seq<seq<MutationHook<F>>>, s: State<F>): (State<F>, Outcome<Answer>)
    requires StoreContract(c) && AllBuildersValid(hooks) && |s.current| == |hooks|
    requires forall j :: 0 <= j < |s.current| ==> s.current[j] in s.muts
  {
    var p := Prepared(c, s);
    if |hooks| == 0 then (p, Returned(Nodes([])))
    else
      var (t, o) := Mutate(c, hooks, 0)(p.current[0], p);
      match o
      case Panicked => (t, Panicked)
      case Returned(Err(e)) => (t, Returned(Failed(e)))
      case Returned(Ok(_)) => (t, Returned(Nodes(t.nodes)))
  }

  /** CreateBulk.Save; `err` is the error recorded when the bulk builder was made. */
  method BulkSave<F(!new)>(c: Setup<F>, err: Option<Error>, hooks: seq<seq<MutationHook<F>>>, s: State<F>)
    returns (t: State<F>, o: Outcome<Answer>)
    requires StoreContract(c) && AllBuildersValid(hooks) && |s.current| == |hooks|
    requires forall j :: 0 <= j < |s.current| ==> s.current[j] in s.muts
    ensures err.Some? ==> t == s && o == Returned(Failed(err.value))
    ensures err.None? ==> (t, o) == BulkRun(c, hooks, s)
  {
    if err.Some? {
      return s, Returned(Failed(err.value));
    }
    t := RunDefaults(c, s);
    o := Returned(Nodes([]));
    if |hooks| > 0 {
      var (t', r) := Mutate(c, hooks, 0)(t.current[0], t);
      t := t';
      o := match r
        case Panicked => Panicked
        case Returned(Err(e)) => Returned(Failed(e))
        case Returned(Ok(_)) => Returned(Nodes(t.nodes));
    }
  }

  /** Only a node is an acceptable value of a single save. */
  function Typed(o: Outcome<Result>): Outcome<Result> {
    if o.Returned? && o.r.Ok? && o.r.v.OtherValue? then Returned(Err(UnexpectedNode)) else o
  }

  function SingleRun<F(!new)>(c: Setup<F>, own: nat, hooks: seq<MutationHook<F>>, s: State<F>): (State<F>, Outcome<Result>)
    requires StoreContract(c) && AllValid(hooks)
  {
    var (t, o) := Fold(hooks, SaveBase(c, own))(own, s);
    (t, Typed(o))
  }

  /** Create.Save of the builder whose mutation is `own`: defaults, then the hooks around sqlSave. */
  function SaveOne<F(!new)>(c: Setup<F>, own: nat, hooks: seq<MutationHook<F>>, s: State<F>): (State<F>, Outcome<Result>)
    requires StoreContract(c) && AllValid(hooks) && own in s.muts
  {
    SingleRun(c, own, hooks, WithDefaults(c, FreshSlices(s), own))
  }

  lemma SaveWithoutHooks<F(!new)>(c: Setup<F>, own: nat, s: State<F>)
    requires StoreContract(c) && own in s.muts
    ensures SingleRun(c, own, [], s) == SqlSave(c, own, s)
  {
    assert s.(muts := s.muts[own := s.muts[own]]) == s;
  }

  /** withHooks around a create builder's sqlSave; None is a hook that was never initialised. */
  method WithHooks<F(!new)>(c: Setup<F>, own: nat, hooks: seq<Option<MutationHook<F>>>, s: State<F>)
    returns (t: State<F>, o: Outcome<Result>)
    requires StoreContract(c) && own in s.muts
    requires forall k :: 0 <= k < |hooks| && hooks[k].Some? ==> Valid(hooks[k].value)
    ensures (exists k :: 0 <= k < |hooks| && hooks[k].None?) ==> t == s && o == Returned(Err(UninitializedHook))
    ensures (forall k :: 0 <= k < |hooks| ==> hooks[k].Some?) ==> (t, o) == SingleRun(c, own, Values(hooks), s)
  {
    if |hooks| == 0 {
      SaveWithoutHooks(c, own, s);
      assert Values(hooks) == [];
      var (t', o') := SqlSave(c, own, s);
      return t', o';
    }
    var mut := Nest(hooks, SaveBase(c, own));
    if mut.None? {
      return s, Returned(Err(UninitializedHook));
    }
    var (t', o') := mut.value(own, s);
    t, o := t', Typed(o');
  }
}
