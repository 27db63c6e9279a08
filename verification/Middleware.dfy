/**
 Mutation hooks, commit hooks and rollback hooks are all the same thing: a function that
 gets the next handler and returns a handler. This module gives one model for the three.

 A hook body is a program that reads what happened so far and picks its next action:
 change the state, call the next handler, or return. Programs are arbitrary, except that
 each of them stops within a number of actions that does not depend on its input.
 */
module Middleware {
  import opened Wrappers

  /** What the caller of a handler sees: a returned value, or a panic unwinding through it. */
  datatype Outcome<+R> = Returned(r: R) | Panicked

  type Handler<!A, !S, R> = (A, S) -> (S, Outcome<R>)

  datatype Action<!A, !S, R> = Return(r: R) | Do(effect: S -> S) | CallNext(arg: A)

  /** One entry of a body's history: an own effect, or the answer of the next handler. */
  datatype Seen<S, R> = Did(s: S) | Got(s: S, r: R)

  /** `run(a, s0, hist)` is the next action of a body entered with argument a in state s0. */
  datatype Program<!A(!new), !S(!new), !R(!new)> =
    Program(steps: nat, run: (A, S, seq<Seen<S, R>>) -> Action<A, S, R>)

  ghost predicate Stops<A(!new), S(!new), R(!new)>(p: Program<A, S, R>) {
    forall a, s0, hist :: |hist| >= p.steps ==> p.run(a, s0, hist).Return?
  }

  datatype Hook<!A(!new), !S(!new), !R(!new)> =
    | Body(p: Program<A, S, R>)
    | If(hk: Hook<A, S, R>, cond: (A, S) -> bool)
    | Chained(hooks: seq<Hook<A, S, R>>)

  ghost predicate Valid<A(!new), S(!new), R(!new)>(h: Hook<A, S, R>) {
    match h
    case Body(p) => Stops(p)
    case If(hk, _) => Valid(hk)
    case Chained(hs) => forall x | x in hs :: Valid(x)
  }

  ghost predicate AllValid<A(!new), S(!new), R(!new)>(hs: seq<Hook<A, S, R>>) {
    forall x | x in hs :: Valid(x)
  }

  /** Runs a body from the point where `hist` has happened and the state is s. */
  function Resume<A(!new), S(!new), R(!new)>(
    p: Program<A, S, R>, a: A, s0: S, hist: seq<Seen<S, R>>, next: Handler<A, S, R>, s: S): (S, Outcome<R>)
    requires Stops(p)
    decreases p.steps - |hist|
  {
    match p.run(a, s0, hist)
    case Return(r) => (s, Returned(r))
    case Do(f) => Resume(p, a, s0, hist + [Did(f(s))], next, f(s))
    case CallNext(b) =>
      var (s1, o) := next(b, s);
      match o
      case Panicked => (s1, Panicked)
      case Returned(r) => Resume(p, a, s0, hist + [Got(s1, r)], next, s1)
  }

  /** The handler a hook builds around the next one: `hook(next)` in the source. */
  function Wrap<A(!new), S(!new), R(!new)>(h: Hook<A, S, R>, next: Handler<A, S, R>): Handler<A, S, R>
    requires Valid(h)
    decreases h
  {
    match h
    case Body(p) => (a, s) => Resume(p, a, s, [], next, s)
    case If(hk, cond) => var inner := Wrap(hk, next); (a, s) => if cond(a, s) then inner(a, s) else next(a, s)
    case Chained(hs) => Fold(hs, next)
  }

  /** A list of hooks around a handler; the first hook of the list runs first. */
  function Fold<A(!new), S(!new), R(!new)>(hs: seq<Hook<A, S, R>>, base: Handler<A, S, R>): Handler<A, S, R>
    requires AllValid(hs)
    decreases hs
  {
    if hs == [] then base else Wrap(hs[0], Fold(hs[1..], base))
  }

  /** Hook lists form a monoid and folding is a homomorphism into handler transformers. */
  lemma {:induction false} FoldConcat<A(!new), S(!new), R(!new)>(
    xs: seq<Hook<A, S, R>>, ys: seq<Hook<A, S, R>>, base: Handler<A, S, R>)
    requires AllValid(xs) && AllValid(ys)
    ensures Fold(xs + ys, base) == Fold(xs, Fold(ys, base))
  {
    if xs == [] {
      assert xs + ys == ys;
    } else {
      assert (xs + ys)[1..] == xs[1..] + ys;
      FoldConcat(xs[1..], ys, base);
    }
  }

  // ---- What a family of hooks promises ----

  ghost predicate HasAnswer<S, R>(hist: seq<Seen<S, R>>) {
    exists k :: 0 <= k < |hist| && hist[k].Got?
  }

  /** The last answer of the next handler in a history that has one. */
  ghost function LastAnswer<S, R>(hist: seq<Seen<S, R>>): R
    requires HasAnswer(hist)
  {
    var last := hist[|hist| - 1];
    if last.Got? then last.r else LastAnswer(hist[..|hist| - 1])
  }

  ghost function Answer<S, R>(hist: seq<Seen<S, R>>): Option<R> {
    if HasAnswer(hist) then Some(LastAnswer(hist)) else None
  }

  lemma AnswerKept<S, R>(hist: seq<Seen<S, R>>, x: Seen<S, R>)
    ensures x.Got? ==> HasAnswer(hist + [x]) && LastAnswer(hist + [x]) == x.r
    ensures x.Did? ==> (HasAnswer(hist + [x]) <==> HasAnswer(hist))
    ensures x.Did? && HasAnswer(hist) ==> LastAnswer(hist + [x]) == LastAnswer(hist)
  {
    var h := hist + [x];
    assert h[|hist|] == x;
    assert h[..|h| - 1] == hist;
    if HasAnswer(hist) {
      var k :| 0 <= k < |hist| && hist[k].Got?;
      assert h[k].Got?;
    }
    if HasAnswer(h) && x.Did? {
      var k :| 0 <= k < |h| && h[k].Got?;
      assert hist[k].Got?;
    }
  }

  /** Own effects stay inside `before` until the first answer of next and inside `after`
      from then on; `once`: next is called at most once; `answers` relates the last answer of
      next, if there is one, to what the hook returns; `sameArg`: next is called with the
      argument the hook was given. */
  datatype Law<!S(!new), !R(!new)> = Law(
    before: (S, S) -> bool, after: (S, S) -> bool, once: bool, answers: (Option<R>, R) -> bool, sameArg: bool)

  ghost predicate Preorder<S(!new)>(rel: (S, S) -> bool) {
    && (forall s :: rel(s, s))
    && (forall s, t, u :: rel(s, t) && rel(t, u) ==> rel(s, u))
  }

  /** Answers may be passed on, and passing on is transitive. */
  ghost predicate Composes<R(!new)>(answers: (Option<R>, R) -> bool) {
    && (forall r :: answers(Some(r), r))
    && (forall o, x, r :: answers(o, x) && answers(Some(x), r) ==> answers(o, r))
  }

  /** What is allowed after an answer is allowed before it, too. */
  ghost predicate Ordered<S(!new), R(!new)>(law: Law<S, R>) {
    && Preorder(law.before) && Preorder(law.after) && Composes(law.answers)
    && forall s, t :: law.after(s, t) ==> law.before(s, t)
  }

  /** No promise about what is returned. */
  predicate AnyAnswer<R>(last: Option<R>, r: R) {
    true
  }

  /** Next is called and its last answer is returned. */
  predicate PassedOn<R(==)>(last: Option<R>, r: R) {
    last == Some(r)
  }

  /** Histories that the program itself leads to. */
  ghost predicate Produced<A(!new), S(!new), R(!new)>(p: Program<A, S, R>, a: A, s0: S, hist: seq<Seen<S, R>>) {
    forall k :: 0 <= k < |hist| ==>
      match p.run(a, s0, hist[..k])
      case Return(_) => false
      case Do(_) => hist[k].Did?
      case CallNext(_) => hist[k].Got?
  }

  lemma ProducedOneMore<A(!new), S(!new), R(!new)>(
    p: Program<A, S, R>, a: A, s0: S, hist: seq<Seen<S, R>>, x: Seen<S, R>)
    requires Produced(p, a, s0, hist)
    requires (p.run(a, s0, hist).Do? && x.Did?) || (p.run(a, s0, hist).CallNext? && x.Got?)
    ensures Produced(p, a, s0, hist + [x])
  {
    var h := hist + [x];
    forall k | 0 <= k < |h|
      ensures h[..k] == if k < |hist| then hist[..k] else hist
    {
    }
  }

  ghost predicate Obeys<A(!new), S(!new), R(!new)>(p: Program<A, S, R>, law: Law<S, R>) {
    forall a, s0, hist | Produced(p, a, s0, hist) ::
      match p.run(a, s0, hist)
      case Return(r) => law.answers(Answer(hist), r)
      case Do(f) => forall s :: if HasAnswer(hist) then law.after(s, f(s)) else law.before(s, f(s))
      case CallNext(b) => (law.once ==> !HasAnswer(hist)) && (law.sameArg ==> b == a)
  }

  ghost predicate Lawful<A(!new), S(!new), R(!new)>(h: Hook<A, S, R>, law: Law<S, R>) {
    match h
    case Body(p) => Obeys(p, law)
    case If(hk, _) => Lawful(hk, law)
    case Chained(hs) => forall x | x in hs :: Lawful(x, law)
  }

  ghost predicate AllLawful<A(!new), S(!new), R(!new)>(hs: seq<Hook<A, S, R>>, law: Law<S, R>) {
    forall x | x in hs :: Lawful(x, law)
  }

  // ---- One call at most: a run is effects, the inner handler, effects ----

  /** Where the single call of the inner handler happens, if it happens. */
  datatype Site<A, S> = NoCall | Call(arg: A, before: S)

  ghost predicate Around<A, S(!new), R(!new)>(
    site: Site<A, S>, inner: Handler<A, S, R>, law: Law<S, R>, s: S, end: (S, Outcome<R>))
  {
    match site
    case NoCall => law.before(s, end.0) && end.1.Returned?
    case Call(b, s1) =>
      var (s2, o) := inner(b, s1);
      law.before(s, s1) && if o.Panicked? then end == (s2, o) else law.after(s2, end.0) && end.1.Returned?
  }

  /** The answer at the end against the one of the inner handler. */
  ghost predicate AnswerFits<A, S(!new), R(!new)>(
    site: Site<A, S>, inner: Handler<A, S, R>, law: Law<S, R>, o: Outcome<R>)
  {
    o.Returned? ==>
      match site
      case NoCall => law.answers(None, o.r)
      case Call(b, s) => inner(b, s).1.Returned? && law.answers(Some(inner(b, s).1.r), o.r)
  }

  /** The rest of a body that has its answer: effects only. */
  lemma {:induction false} ResumeAnswered<A(!new), S(!new), R(!new)>(
    p: Program<A, S, R>, law: Law<S, R>, a: A, s0: S, hist: seq<Seen<S, R>>, next: Handler<A, S, R>, s: S)
    requires Stops(p) && Obeys(p, law) && law.once && Ordered(law)
    requires Produced(p, a, s0, hist) && HasAnswer(hist)
    ensures law.after(s, Resume(p, a, s0, hist, next, s).0) && Resume(p, a, s0, hist, next, s).1.Returned?
    ensures law.answers(Some(LastAnswer(hist)), Resume(p, a, s0, hist, next, s).1.r)
    decreases p.steps - |hist|
  {
    if p.run(a, s0, hist).Do? {
      var t := p.run(a, s0, hist).effect(s);
      AnswerKept(hist, Did(t));
      ProducedOneMore(p, a, s0, hist, Did(t));
      ResumeAnswered(p, law, a, s0, hist + [Did(t)], next, t);
    }
  }

  lemma {:induction false} ResumeAround<A(!new), S(!new), R(!new)>(
    p: Program<A, S, R>, law: Law<S, R>, a: A, s0: S, hist: seq<Seen<S, R>>, next: Handler<A, S, R>, s: S)
    returns (site: Site<A, S>)
    requires Stops(p) && Obeys(p, law) && law.once && Ordered(law)
    requires Produced(p, a, s0, hist) && !HasAnswer(hist)
    ensures Around(site, next, law, s, Resume(p, a, s0, hist, next, s))
    ensures law.sameArg && site.Call? ==> site.arg == a
    ensures AnswerFits(site, next, law, Resume(p, a, s0, hist, next, s).1)
    decreases p.steps - |hist|
  {
    match p.run(a, s0, hist)
    case Return(r) => site := NoCall;
    case Do(f) =>
      AnswerKept(hist, Did(f(s)));
      ProducedOneMore(p, a, s0, hist, Did(f(s)));
      site := ResumeAround(p, law, a, s0, hist + [Did(f(s))], next, f(s));
    case CallNext(b) =>
      site := Call(b, s);
      var (s1, o) := next(b, s);
      if o.Returned? {
        AnswerKept(hist, Got(s1, o.r));
        ProducedOneMore(p, a, s0, hist, Got(s1, o.r));
        ResumeAnswered(p, law, a, s0, hist + [Got(s1, o.r)], next, s1);
      }
  }

  lemma {:induction false} WrapAround<A(!new), S(!new), R(!new)>(
    h: Hook<A, S, R>, law: Law<S, R>, next: Handler<A, S, R>, a: A, s: S) returns (site: Site<A, S>)
    requires Valid(h) && Lawful(h, law) && law.once && Ordered(law)
    ensures Around(site, next, law, s, Wrap(h, next)(a, s))
    ensures law.sameArg && site.Call? ==> site.arg == a
    ensures AnswerFits(site, next, law, Wrap(h, next)(a, s).1)
    decreases h
  {
    match h
    case Body(p) => site := ResumeAround(p, law, a, s, [], next, s);
    case If(hk, cond) =>
      if cond(a, s) {
        site := WrapAround(hk, law, next, a, s);
      } else {
        site := Call(a, s);
      }
    case Chained(hs) => site := FoldAround(hs, law, next, a, s);
  }

  /** A list of hooks that each call next at most once reaches the base handler at most once,
      with nothing but hook effects before and after. */
  lemma {:induction false} FoldAround<A(!new), S(!new), R(!new)>(
    hs: seq<Hook<A, S, R>>, law: Law<S, R>, base: Handler<A, S, R>, a: A, s: S) returns (site: Site<A, S>)
    requires AllValid(hs) && AllLawful(hs, law) && law.once && Ordered(law)
    ensures Around(site, base, law, s, Fold(hs, base)(a, s))
    ensures law.sameArg && site.Call? ==> site.arg == a
    ensures AnswerFits(site, base, law, Fold(hs, base)(a, s).1)
    decreases hs
  {
    if hs == [] {
      site := Call(a, s);
      assert law.after(base(a, s).0, base(a, s).0);
    } else {
      var rest := Fold(hs[1..], base);
      var outer := WrapAround(hs[0], law, rest, a, s);
      site := NoCall;
      if outer.Call? {
        site := FoldAround(hs[1..], law, base, outer.arg, outer.before);
        var mid, end := rest(outer.arg, outer.before), Fold(hs, base)(a, s).0;
        if site.NoCall? {
          assert law.before(outer.before, mid.0) && law.before(mid.0, end);
        } else if base(site.arg, site.before).1.Returned? {
          assert law.after(base(site.arg, site.before).0, mid.0) && law.after(mid.0, end);
        }
      }
    }
  }

  // ---- Any number of calls: invariants, and replacing the base handler ----

  ghost predicate Keeps<S(!new), R(!new)>(law: Law<S, R>, inv: S -> bool) {
    forall x, y :: inv(x) && (law.before(x, y) || law.after(x, y)) ==> inv(y)
  }

  /** `inv` where a handler returns, `bad` where it panics. */
  ghost predicate EndsIn<S, R>(inv: S -> bool, bad: S -> bool, end: (S, Outcome<R>)) {
    if end.1.Returned? then inv(end.0) else bad(end.0)
  }

  lemma {:induction false} ResumeEnds<A(!new), S(!new), R(!new)>(
    p: Program<A, S, R>, law: Law<S, R>, inv: S -> bool, bad: S -> bool, a: A, s0: S, hist: seq<Seen<S, R>>,
    next: Handler<A, S, R>, s: S)
    requires Stops(p) && Obeys(p, law) && Produced(p, a, s0, hist) && inv(s)
    requires Keeps(law, inv)
    requires forall b, x :: inv(x) && (law.sameArg ==> b == a) ==> EndsIn(inv, bad, next(b, x))
    ensures EndsIn(inv, bad, Resume(p, a, s0, hist, next, s))
    decreases p.steps - |hist|
  {
    match p.run(a, s0, hist)
    case Return(r) =>
    case Do(f) =>
      ProducedOneMore(p, a, s0, hist, Did(f(s)));
      ResumeEnds(p, law, inv, bad, a, s0, hist + [Did(f(s))], next, f(s));
    case CallNext(b) =>
      var (s1, o) := next(b, s);
      assert EndsIn(inv, bad, next(b, s));
      if o.Returned? {
        ProducedOneMore(p, a, s0, hist, Got(s1, o.r));
        ResumeEnds(p, law, inv, bad, a, s0, hist + [Got(s1, o.r)], next, s1);
      }
  }

  lemma {:induction false} WrapEnds<A(!new), S(!new), R(!new)>(
    h: Hook<A, S, R>, law: Law<S, R>, inv: S -> bool, bad: S -> bool, a: A, next: Handler<A, S, R>, s: S)
    requires Valid(h) && Lawful(h, law) && inv(s)
    requires Keeps(law, inv)
    requires forall b, x :: inv(x) && (law.sameArg ==> b == a) ==> EndsIn(inv, bad, next(b, x))
    ensures EndsIn(inv, bad, Wrap(h, next)(a, s))
    decreases h
  {
    match h
    case Body(p) => ResumeEnds(p, law, inv, bad, a, s, [], next, s);
    case If(hk, cond) =>
      if cond(a, s) {
        WrapEnds(hk, law, inv, bad, a, next, s);
      }
    case Chained(hs) => FoldEnds(hs, law, inv, bad, a, next, s);
  }

  /** If the base handler returns with the invariant or panics in a bad state, so does the
      whole chain, however often hooks call next. */
  lemma {:induction false} FoldEnds<A(!new), S(!new), R(!new)>(
    hs: seq<Hook<A, S, R>>, law: Law<S, R>, inv: S -> bool, bad: S -> bool, a: A, base: Handler<A, S, R>, s: S)
    requires AllValid(hs) && AllLawful(hs, law) && inv(s)
    requires Keeps(law, inv)
    requires forall b, x :: inv(x) && (law.sameArg ==> b == a) ==> EndsIn(inv, bad, base(b, x))
    ensures EndsIn(inv, bad, Fold(hs, base)(a, s))
    decreases hs
  {
    if hs != [] {
      var rest := Fold(hs[1..], base);
      forall b, x | inv(x) && (law.sameArg ==> b == a)
        ensures EndsIn(inv, bad, rest(b, x))
      {
        FoldEnds(hs[1..], law, inv, bad, b, base, x);
      }
      WrapEnds(hs[0], law, inv, bad, a, rest, s);
    }
  }

  /** An invariant of hook effects and of the base handler is an invariant of the whole chain. */
  lemma FoldKeeps<A(!new), S(!new), R(!new)>(
    hs: seq<Hook<A, S, R>>, law: Law<S, R>, inv: S -> bool, a: A, base: Handler<A, S, R>, s: S)
    requires AllValid(hs) && AllLawful(hs, law) && inv(s)
    requires Keeps(law, inv)
    requires forall b, x :: inv(x) && (law.sameArg ==> b == a) ==> inv(base(b, x).0)
    ensures inv(Fold(hs, base)(a, s).0)
  {
    FoldEnds(hs, law, inv, inv, a, base, s);
  }

  // ---- Hooks that call next: the chain gets where the base handler gets ----

  /** Nothing is returned before next has answered. */
  predicate Called<R>(last: Option<R>, r: R) {
    last.Some?
  }

  lemma {:induction false} ResumeReaches<A(!new), S(!new), R(!new)>(
    p: Program<A, S, R>, law: Law<S, R>, inv: S -> bool, goal: S -> bool, a: A, s0: S, hist: seq<Seen<S, R>>,
    next: Handler<A, S, R>, s: S)
    requires Stops(p) && Obeys(p, law) && Produced(p, a, s0, hist) && inv(s) && (HasAnswer(hist) ==> goal(s))
    requires Keeps(law, inv) && Keeps(law, goal) && forall x :: goal(x) ==> inv(x)
    requires forall last, r :: law.answers(last, r) ==> last.Some?
    requires forall b, x :: inv(x) ==> goal(next(b, x).0)
    ensures goal(Resume(p, a, s0, hist, next, s).0)
    decreases p.steps - |hist|
  {
    match p.run(a, s0, hist)
    case Return(r) => assert law.answers(Answer(hist), r);
    case Do(f) =>
      AnswerKept(hist, Did(f(s)));
      ProducedOneMore(p, a, s0, hist, Did(f(s)));
      ResumeReaches(p, law, inv, goal, a, s0, hist + [Did(f(s))], next, f(s));
    case CallNext(b) =>
      var (s1, o) := next(b, s);
      assert goal(next(b, s).0);
      if o.Returned? {
        ProducedOneMore(p, a, s0, hist, Got(s1, o.r));
        ResumeReaches(p, law, inv, goal, a, s0, hist + [Got(s1, o.r)], next, s1);
      }
  }

  lemma {:induction false} WrapReaches<A(!new), S(!new), R(!new)>(
    h: Hook<A, S, R>, law: Law<S, R>, inv: S -> bool, goal: S -> bool, a: A, next: Handler<A, S, R>, s: S)
    requires Valid(h) && Lawful(h, law) && inv(s)
    requires Keeps(law, inv) && Keeps(law, goal) && forall x :: goal(x) ==> inv(x)
    requires forall last, r :: law.answers(last, r) ==> last.Some?
    requires forall b, x :: inv(x) ==> goal(next(b, x).0)
    ensures goal(Wrap(h, next)(a, s).0)
    decreases h
  {
    match h
    case Body(p) => ResumeReaches(p, law, inv, goal, a, s, [], next, s);
    case If(hk, cond) =>
      if cond(a, s) {
        WrapReaches(hk, law, inv, goal, a, next, s);
      }
    case Chained(hs) => FoldReaches(hs, law, inv, goal, a, next, s);
  }

  /** What the base handler reaches from wherever hooks can lead, and hooks then leave alone,
      is reached by every chain of hooks that call next, once or more often. */
  lemma {:induction false} FoldReaches<A(!new), S(!new), R(!new)>(
    hs: seq<Hook<A, S, R>>, law: Law<S, R>, inv: S -> bool, goal: S -> bool, a: A, base: Handler<A, S, R>, s: S)
    requires AllValid(hs) && AllLawful(hs, law) && inv(s)
    requires Keeps(law, inv) && Keeps(law, goal) && forall x :: goal(x) ==> inv(x)
    requires forall last, r :: law.answers(last, r) ==> last.Some?
    requires forall b, x :: inv(x) ==> goal(base(b, x).0)
    ensures goal(Fold(hs, base)(a, s).0)
    decreases hs
  {
    if hs != [] {
      var rest := Fold(hs[1..], base);
      forall b, x | inv(x)
        ensures goal(rest(b, x).0)
      {
        FoldReaches(hs[1..], law, inv, goal, b, base, x);
      }
      WrapReaches(hs[0], law, inv, goal, a, rest, s);
    }
  }

  /** Equal, or the second one is cut short by a panic the first does not have. */
  ghost predicate SameOrCut<S, R>(cut: bool, x: (S, Outcome<R>), y: (S, Outcome<R>)) {
    x == y || (cut && y.1.Panicked?)
  }

  lemma {:induction false} ResumeSwap<A(!new), S(!new), R(!new)>(
    p: Program<A, S, R>, law: Law<S, R>, inv: S -> bool, cut: bool, a: A, s0: S, hist: seq<Seen<S, R>>,
    next: Handler<A, S, R>, next': Handler<A, S, R>, s: S)
    requires Stops(p) && Obeys(p, law) && Produced(p, a, s0, hist) && inv(s)
    requires Keeps(law, inv)
    requires forall b, x :: inv(x) && (law.sameArg ==> b == a) ==>
               SameOrCut(cut, next(b, x), next'(b, x)) && inv(next(b, x).0)
    ensures SameOrCut(cut, Resume(p, a, s0, hist, next, s), Resume(p, a, s0, hist, next', s))
    decreases p.steps - |hist|
  {
    match p.run(a, s0, hist)
    case Return(r) =>
    case Do(f) =>
      ProducedOneMore(p, a, s0, hist, Did(f(s)));
      ResumeSwap(p, law, inv, cut, a, s0, hist + [Did(f(s))], next, next', f(s));
    case CallNext(b) =>
      var (s1, o) := next(b, s);
      assert SameOrCut(cut, next(b, s), next'(b, s));
      if o.Returned? {
        ProducedOneMore(p, a, s0, hist, Got(s1, o.r));
        ResumeSwap(p, law, inv, cut, a, s0, hist + [Got(s1, o.r)], next, next', s1);
      }
  }

  lemma {:induction false} WrapSwap<A(!new), S(!new), R(!new)>(
    h: Hook<A, S, R>, law: Law<S, R>, inv: S -> bool, cut: bool, a: A,
    next: Handler<A, S, R>, next': Handler<A, S, R>, s: S)
    requires Valid(h) && Lawful(h, law) && inv(s)
    requires Keeps(law, inv)
    requires forall b, x :: inv(x) && (law.sameArg ==> b == a) ==>
               SameOrCut(cut, next(b, x), next'(b, x)) && inv(next(b, x).0)
    ensures SameOrCut(cut, Wrap(h, next)(a, s), Wrap(h, next')(a, s))
    decreases h
  {
    match h
    case Body(p) => ResumeSwap(p, law, inv, cut, a, s, [], next, next', s);
    case If(hk, cond) =>
      if cond(a, s) {
        WrapSwap(hk, law, inv, cut, a, next, next', s);
      }
    case Chained(hs) => FoldSwapOrCut(hs, law, inv, cut, a, next, next', s);
  }

  /** Base handlers that agree wherever the invariant holds, except that the second may panic
      instead, make chains that agree, except that the second may panic instead. */
  lemma {:induction false} FoldSwapOrCut<A(!new), S(!new), R(!new)>(
    hs: seq<Hook<A, S, R>>, law: Law<S, R>, inv: S -> bool, cut: bool, a: A,
    base: Handler<A, S, R>, base': Handler<A, S, R>, s: S)
    requires AllValid(hs) && AllLawful(hs, law) && inv(s)
    requires Keeps(law, inv)
    requires forall b, x :: inv(x) && (law.sameArg ==> b == a) ==>
               SameOrCut(cut, base(b, x), base'(b, x)) && inv(base(b, x).0)
    ensures SameOrCut(cut, Fold(hs, base)(a, s), Fold(hs, base')(a, s))
    decreases hs
  {
    if hs != [] {
      var rest, rest' := Fold(hs[1..], base), Fold(hs[1..], base');
      forall b, x | inv(x) && (law.sameArg ==> b == a)
        ensures SameOrCut(cut, rest(b, x), rest'(b, x)) && inv(rest(b, x).0)
      {
        FoldSwapOrCut(hs[1..], law, inv, cut, b, base, base', x);
        FoldKeeps(hs[1..], law, inv, b, base, x);
      }
      WrapSwap(hs[0], law, inv, cut, a, rest, rest', s);
    }
  }

  /** Base handlers that agree wherever the invariant holds are interchangeable under hooks. */
  lemma FoldSwap<A(!new), S(!new), R(!new)>(
    hs: seq<Hook<A, S, R>>, law: Law<S, R>, inv: S -> bool, a: A,
    base: Handler<A, S, R>, base': Handler<A, S, R>, s: S)
    requires AllValid(hs) && AllLawful(hs, law) && inv(s)
    requires Keeps(law, inv)
    requires forall b, x :: inv(x) && (law.sameArg ==> b == a) ==> base(b, x) == base'(b, x) && inv(base(b, x).0)
    ensures Fold(hs, base)(a, s) == Fold(hs, base')(a, s)
  {
    FoldSwapOrCut(hs, law, inv, false, a, base, base', s);
  }

  // ---- A hook that does everything the laws speak of ----

  /** Does `f`, calls next with its own argument, does `g`, and returns the answer. */
  function PassOn<A(!new), S(!new), R(!new)>(f: S -> S, g: S -> S, none: R): Hook<A, S, R> {
    Body(Program(3, (a: A, s0: S, hist: seq<Seen<S, R>>) =>
      if |hist| == 0 then Do(f)
      else if |hist| == 1 then CallNext(a)
      else if |hist| == 2 then Do(g)
      else Return(if hist[1].Got? then hist[1].r else none)))
  }

  /** Where the answer is in a history of such a hook. */
  lemma PassOnHistory<A(!new), S(!new), R(!new)>(
    f: S -> S, g: S -> S, none: R, a: A, s0: S, hist: seq<Seen<S, R>>)
    requires Produced(PassOn<A, S, R>(f, g, none).p, a, s0, hist)
    ensures |hist| <= 3 && (HasAnswer(hist) <==> |hist| >= 2)
    ensures |hist| == 3 ==> hist[1].Got? && LastAnswer(hist) == hist[1].r
  {
    var p := PassOn<A, S, R>(f, g, none).p;
    var n := if |hist| > 3 then 3 else |hist|;
    assert n == 3 ==> p.run(a, s0, hist[..n]).Return?;
    if |hist| >= 1 {
      assert hist[..0] == [] && p.run(a, s0, hist[..0]).Do?;
    }
    if |hist| >= 2 {
      assert |hist[..1]| == 1 && p.run(a, s0, hist[..1]).CallNext?;
    }
    if |hist| == 3 {
      assert |hist[..2]| == 2 && p.run(a, s0, hist[..2]).Do?;
      assert hist[..|hist| - 1][1] == hist[1];
    }
  }

  /** Effects inside the two relations are all such a hook has to promise. */
  lemma PassOnIsLawful<A(!new), S(!new), R(!new)>(f: S -> S, g: S -> S, none: R, law: Law<S, R>)
    requires forall r :: law.answers(Some(r), r)
    requires forall s :: law.before(s, f(s))
    requires forall s :: law.after(s, g(s))
    ensures Valid(PassOn<A, S, R>(f, g, none)) && Lawful(PassOn<A, S, R>(f, g, none), law)
  {
    var p := PassOn<A, S, R>(f, g, none).p;
    forall a: A, s0: S, hist: seq<Seen<S, R>> | Produced(p, a, s0, hist)
      ensures |hist| <= 3 && (HasAnswer(hist) <==> |hist| >= 2)
      ensures |hist| == 3 ==> hist[1].Got? && LastAnswer(hist) == hist[1].r
    {
      PassOnHistory(f, g, none, a, s0, hist);
    }
  }

  /** ... and it runs as it reads. */
  lemma PassOnRuns<A(!new), S(!new), R(!new)>(
    f: S -> S, g: S -> S, none: R, next: Handler<A, S, R>, a: A, s: S)
    requires Valid(PassOn<A, S, R>(f, g, none))
    ensures var (t, o) := next(a, f(s));
      Wrap(PassOn<A, S, R>(f, g, none), next)(a, s) == (if o.Returned? then g(t) else t, o)
  {
    var p := PassOn<A, S, R>(f, g, none).p;
    var h0: seq<Seen<S, R>> := [];
    var h1 := h0 + [Did(f(s))];
    var (t, o) := next(a, f(s));
    assert p.run(a, s, h0) == Do(f) && p.run(a, s, h1) == CallNext(a);
    if o.Returned? {
      var h2 := h1 + [Got(t, o.r)];
      var h3 := h2 + [Did(g(t))];
      assert h3[1] == Got(t, o.r);
      assert p.run(a, s, h2) == Do(g) && p.run(a, s, h3) == Return(o.r);
      assert Resume(p, a, s, h2, next, t) == Resume(p, a, s, h3, next, g(t));
    }
  }

  /** Such a hook, with its two effects given by tags. */
  function TagHook<T, A(!new), S(!new), R(!new)>(run: (T, S) -> S, first: T, last: T, none: R): Hook<A, S, R> {
    PassOn((s: S) => run(first, s), (s: S) => run(last, s), none)
  }

  /** What a chain of such hooks does, as a plain run: the first effects in order, the base
      handler, and, if it returns, the last effects in reverse. */
  function Through<T, A, S, R>(run: (T, S) -> S, tags: seq<(T, T)>, base: Handler<A, S, R>, a: A, s: S): (S, Outcome<R>)
    decreases |tags|
  {
    if tags == [] then base(a, s)
    else
      var (t, o) := Through(run, tags[1..], base, a, run(tags[0].0, s));
      (if o.Returned? then run(tags[0].1, t) else t, o)
  }

  ghost predicate TagHooks<T, A(!new), S(!new), R(!new)>(
    hs: seq<Hook<A, S, R>>, run: (T, S) -> S, tags: seq<(T, T)>, none: R)
  {
    |hs| == |tags| && forall i :: 0 <= i < |hs| ==> hs[i] == TagHook(run, tags[i].0, tags[i].1, none)
  }

  lemma TagHookIsLawful<T, A(!new), S(!new), R(!new)>(run: (T, S) -> S, first: T, last: T, none: R, law: Law<S, R>)
    requires forall r :: law.answers(Some(r), r)
    requires forall s :: law.before(s, run(first, s))
    requires forall s :: law.after(s, run(last, s))
    ensures Valid(TagHook<T, A, S, R>(run, first, last, none)) && Lawful(TagHook<T, A, S, R>(run, first, last, none), law)
  {
    PassOnIsLawful<A, S, R>((s: S) => run(first, s), (s: S) => run(last, s), none, law);
  }

  lemma TagHookRuns<T, A(!new), S(!new), R(!new)>(
    run: (T, S) -> S, first: T, last: T, none: R, next: Handler<A, S, R>, a: A, s: S)
    requires Valid(TagHook<T, A, S, R>(run, first, last, none))
    ensures var (t, o) := next(a, run(first, s));
      Wrap(TagHook<T, A, S, R>(run, first, last, none), next)(a, s) == (if o.Returned? then run(last, t) else t, o)
  {
    var f, g := (s: S) => run(first, s), (s: S) => run(last, s);
    PassOnRuns(f, g, none, next, a, s);
  }

  /** Every hook of the list runs, each once and in its place. */
  lemma {:induction false} FoldPassesThrough<T, A(!new), S(!new), R(!new)>(
    hs: seq<Hook<A, S, R>>, run: (T, S) -> S, tags: seq<(T, T)>, none: R, base: Handler<A, S, R>, a: A, s: S)
    requires AllValid(hs) && TagHooks(hs, run, tags, none)
    ensures Fold(hs, base)(a, s) == Through(run, tags, base, a, s)
    decreases |hs|
  {
    if hs != [] {
      var (first, last) := tags[0];
      FoldPassesThrough(hs[1..], run, tags[1..], none, base, a, run(first, s));
      assert hs[0] == TagHook(run, first, last, none) && hs[0] in hs;
      TagHookRuns(run, first, last, none, Fold(hs[1..], base), a, s);
    }
  }

  // ---- The loop that builds a chain ----

  /** Wraps from the last hook to the first; gives up at a nil hook before anything runs. */
  method Nest<A(!new), S(!new), R(!new)>(hs: seq<Option<Hook<A, S, R>>>, base: Handler<A, S, R>)
    returns (h: Option<Handler<A, S, R>>)
    requires forall k :: 0 <= k < |hs| && hs[k].Some? ==> Valid(hs[k].value)
    ensures h.None? <==> exists k :: 0 <= k < |hs| && hs[k].None?
    ensures h.Some? ==> h.value == Fold(Values(hs), base)
  {
    var handler := base;
    var i := |hs|;
    ghost var rest: seq<Hook<A, S, R>> := [];
    while i > 0
      invariant 0 <= i <= |hs| && |rest| == |hs| - i
      invariant forall k :: i <= k < |hs| ==> hs[k] == Some(rest[k - i])
      invariant AllValid(rest) && handler == Fold(rest, base)
    {
      i := i - 1;
      if hs[i].None? {
        return None;
      }
      handler := Wrap(hs[i].value, handler);
      ghost var longer := [hs[i].value] + rest;
      assert longer[1..] == rest;
      rest := longer;
    }
    assert rest == Values(hs);
    h := Some(handler);
  }
}
