/**
 The hook package: conditional hooks, Reject, and chains of hooks.
 */
module HookPackage {
  import opened Middleware
  import opened Create

  /** Op.Is: equal, or a bit in common. */
  predicate Is(op: Op, mask: Op) {
    op == mask || op * mask != {}
  }

  /** The condition HasOp; `foreign` is the operation of mutations of other entity types. */
  function HasOp<F>(mask: Op, foreign: Op): (nat, State<F>) -> bool {
    (m: nat, s: State<F>) => Is(if m in s.muts then s.muts[m].op else foreign, mask)
  }

  function Not<F>(cond: (nat, State<F>) -> bool): (nat, State<F>) -> bool {
    (m: nat, s: State<F>) => !cond(m, s)
  }

  function On<F(!new)>(hk: MutationHook<F>, mask: Op, foreign: Op): MutationHook<F> {
    If(hk, HasOp(mask, foreign))
  }

  function Unless<F(!new)>(hk: MutationHook<F>, mask: Op, foreign: Op): MutationHook<F> {
    If(hk, Not(HasOp(mask, foreign)))
  }

  function FixedError<F(!new)>(e: Error): MutationHook<F> {
    Body(Program(0, (m: nat, s0: State<F>, hist: seq<Seen<State<F>, Result>>) => Return(Err(e))))
  }

  function Reject<F(!new)>(mask: Op, foreign: Op): MutationHook<F> {
    On(FixedError(NotAllowed(mask)), mask, foreign)
  }

  /** A mutation of a single operation matches exactly the masks with that operation. */
  lemma SingleOpMatches(op: OpKind, mask: Op)
    ensures Is({op}, mask) <==> op in mask
  {
    assert op in {op} * mask <==> op in mask;
    if {op} * mask != {} {
      var x :| x in {op} * mask;
    }
  }

  /** On runs the hook exactly for mutations whose operation is in the mask, Unless exactly for
      the others, and Reject refuses exactly those in the mask. */
  lemma MaskDecides<F(!new)>(hk: MutationHook<F>, mask: Op, foreign: Op, next: Mutator<F>, m: nat, op: OpKind, s: State<F>)
    requires Valid(hk) && m in s.muts && s.muts[m].op == {op}
    ensures Wrap(On(hk, mask, foreign), next)(m, s) == if op in mask then Wrap(hk, next)(m, s) else next(m, s)
    ensures Wrap(Unless(hk, mask, foreign), next)(m, s) == if op in mask then next(m, s) else Wrap(hk, next)(m, s)
    ensures Wrap(Reject(mask, foreign), next)(m, s)
         == if op in mask then (s, Returned(Err(NotAllowed(mask)))) else next(m, s)
  {
    SingleOpMatches(op, mask);
  }

  /** For every mutation exactly one of On and Unless runs the hook; the other goes on to next. */
  lemma OnOrUnless<F(!new)>(hk: MutationHook<F>, mask: Op, foreign: Op, next: Mutator<F>, m: nat, s: State<F>)
    requires Valid(hk)
    ensures HasOp<F>(mask, foreign)(m, s) ==>
              && Wrap(On(hk, mask, foreign), next)(m, s) == Wrap(hk, next)(m, s)
              && Wrap(Unless(hk, mask, foreign), next)(m, s) == next(m, s)
    ensures !HasOp<F>(mask, foreign)(m, s) ==>
              && Wrap(On(hk, mask, foreign), next)(m, s) == next(m, s)
              && Wrap(Unless(hk, mask, foreign), next)(m, s) == Wrap(hk, next)(m, s)
  {
  }

  /** Nothing is promised under this law, so every hook obeys it. */
  function NoLaw<F(!new)>(): Law<State<F>, Result> {
    Law((s: State<F>, t: State<F>) => true, (s: State<F>, t: State<F>) => true,
        false, AnyAnswer<Result>, false)
  }

  lemma {:induction false} EveryHookObeysNoLaw<F(!new)>(h: MutationHook<F>)
    ensures Lawful(h, NoLaw<F>())
    decreases h
  {
    match h
    case Body(p) =>
    case If(hk, _) => EveryHookObeysNoLaw(hk);
    case Chained(hs) =>
      forall x | x in hs
        ensures Lawful(x, NoLaw<F>())
      {
        EveryHookObeysNoLaw(x);
      }
  }

  /** A rejecting mutator in front of `rest`: a matching mutation stops here, with the state as it is. */
  function Barrier<F(!new)>(mask: Op, foreign: Op, rest: Mutator<F>): Mutator<F> {
    (m: nat, s: State<F>) => if HasOp<F>(mask, foreign)(m, s) then (s, Returned(Err(NotAllowed(mask)))) else rest(m, s)
  }

  /** Whatever the outer hooks do, what lies behind a Reject sees only the mutations that do
      not match when they arrive. */
  lemma RejectIsABarrier<F(!new)>(
    outer: seq<MutationHook<F>>, mask: Op, foreign: Op, inner: seq<MutationHook<F>>, exec: Mutator<F>, m: nat, s: State<F>)
    requires AllValid(outer) && AllValid(inner)
    ensures Fold(outer + [Reject(mask, foreign)] + inner, exec)(m, s)
         == Fold(outer, Barrier(mask, foreign, Fold(inner, exec)))(m, s)
  {
    var reject: MutationHook<F> := Reject(mask, foreign);
    var rest := Fold(inner, exec);
    assert outer + [reject] + inner == outer + ([reject] + inner);
    assert ([reject] + inner)[1..] == inner;
    FoldConcat(outer, [reject] + inner, exec);
    forall x | x in outer
      ensures Lawful(x, NoLaw<F>())
    {
      EveryHookObeysNoLaw(x);
    }
    var wrapped := Wrap(reject, rest);
    forall b: nat, x: State<F>
      ensures wrapped(b, x) == Barrier(mask, foreign, rest)(b, x)
    {
    }
    FoldSwap(outer, NoLaw<F>(), (x: State<F>) => true, m, wrapped, Barrier(mask, foreign, rest), s);
  }

  /** Every mutation there is matches the mask. */
  ghost predicate AllMatch<F>(mask: Op, s: State<F>) {
    forall m :: m in s.muts ==> Is(s.muts[m].op, mask)
  }

  ghost function KeepsMatching<F(!new)>(mask: Op): Law<State<F>, Result> {
    var keeps := (s: State<F>, t: State<F>) => AllMatch(mask, s) ==> AllMatch(mask, t);
    Law(keeps, keeps, false, AnyAnswer<Result>, false)
  }

  /** If outer hooks leave no way to a mutation that does not match, the outcome does not
      depend on what is behind the Reject: it is never reached. */
  lemma RejectedExecIsNeverReached<F(!new)>(
    outer: seq<MutationHook<F>>, mask: Op, foreign: Op, inner: seq<MutationHook<F>>, exec: Mutator<F>,
    inner': seq<MutationHook<F>>, exec': Mutator<F>, m: nat, s: State<F>)
    requires AllValid(outer) && AllValid(inner) && AllValid(inner')
    requires AllLawful(outer, KeepsMatching(mask)) && AllMatch(mask, s) && Is(foreign, mask)
    ensures Fold(outer + [Reject(mask, foreign)] + inner, exec)(m, s)
         == Fold(outer + [Reject(mask, foreign)] + inner', exec')(m, s)
  {
    RejectIsABarrier(outer, mask, foreign, inner, exec, m, s);
    RejectIsABarrier(outer, mask, foreign, inner', exec', m, s);
    var inv := (x: State<F>) => AllMatch(mask, x);
    var b1, b2 := Barrier(mask, foreign, Fold(inner, exec)), Barrier(mask, foreign, Fold(inner', exec'));
    assert forall b: nat, x: State<F> :: inv(x) ==> b1(b, x) == b2(b, x) && inv(b1(b, x).0);
    FoldSwap(outer, KeepsMatching(mask), inv, m, b1, b2, s);
  }

  // ---- Chains ----

  /** A chain used as one hook runs its hooks in order around what follows. */
  lemma ChainIsItsHooks<F(!new)>(hs: seq<MutationHook<F>>, rest: seq<MutationHook<F>>, exec: Mutator<F>)
    requires AllValid(hs) && AllValid(rest)
    ensures Valid(Chained(hs))
    ensures Fold([Chained(hs)] + rest, exec) == Fold(hs + rest, exec)
  {
    assert ([Chained(hs)] + rest)[1..] == rest;
    FoldConcat(hs, rest, exec);
  }

  /** An immutable list of hooks kept in an array of its own. */
  class Chain<F(!new)> {
    const hooks: array<MutationHook<F>>

    ghost predicate WellFormed()
      reads hooks
    {
      AllValid(hooks[..])
    }

    /** NewChain copies the slice it is given. */
    constructor (src: array<MutationHook<F>>)
      ensures fresh(hooks) && hooks[..] == src[..]
    {
      hooks := new MutationHook<F>[src.Length](i requires 0 <= i < src.Length reads src => src[i]);
    }

    /** A new chain in a new array; neither this chain nor the argument shares it. */
    method Append(more: array<MutationHook<F>>) returns (c: Chain<F>)
      ensures fresh(c) && fresh(c.hooks)
      ensures c.hooks[..] == hooks[..] + more[..]
      ensures hooks[..] == old(hooks[..])
    {
      var n := hooks.Length;
      var all := new MutationHook<F>[n + more.Length](
        i requires 0 <= i < n + more.Length reads hooks, more => if i < n then hooks[i] else more[i - n]);
      assert all[..] == hooks[..] + more[..];
      c := new Chain<F>(all);
    }

    method Extend(other: Chain<F>) returns (c: Chain<F>)
      ensures fresh(c) && fresh(c.hooks)
      ensures c.hooks[..] == hooks[..] + other.hooks[..]
    {
      c := Append(other.hooks);
    }

    /** Chain.Hook()(mutator). */
    method Hook(mutator: Mutator<F>) returns (h: Mutator<F>)
      requires WellFormed()
      ensures h == Fold(hooks[..], mutator)
    {
      h := mutator;
      var i := hooks.Length;
      assert hooks[i..] == [];
      while i > 0
        invariant 0 <= i <= hooks.Length && AllValid(hooks[i..])
        invariant h == Fold(hooks[i..], mutator)
      {
        i := i - 1;
        assert hooks[i] in hooks[..] && hooks[i..] == [hooks[i]] + hooks[i + 1..];
        h := Wrap(hooks[i], h);
      }
      assert hooks[0..] == hooks[..];
    }
  }

  /** Later Appends do not change what a chain does, not even when the new chain's array or
      the caller's slice is overwritten afterwards. */
  method AppendLeavesChainAlone<F(!new)>(c: Chain<F>, more: array<MutationHook<F>>, x: MutationHook<F>, base: Mutator<F>)
    returns (before: Mutator<F>, after: Mutator<F>)
    requires c.WellFormed() && more != c.hooks
    modifies more
    ensures before == after == Fold(old(c.hooks[..]), base)
  {
    before := c.Hook(base);
    var d := c.Append(more);
    forall i | 0 <= i < more.Length {
      more[i] := x;
    }
    forall i | 0 <= i < d.hooks.Length {
      d.hooks[i] := x;
    }
    assert c.hooks[..] == old(c.hooks[..]);
    after := c.Hook(base);
  }
}
