/**
 The hooks of every builder of a bulk run: one of them can refuse the whole bulk, and hooks
 that only log leave exactly their events, each in its place.
 */
module BulkHooks {
  import opened Wrappers
  import opened Middleware
  import opened HookPackage
  import opened Create
  import opened BulkCreate
  import opened Save
  import opened SaveLaws
  import opened SingleVsBulk

  // ---- A hook that refuses ----

  /** Anything a hook may do; if it is quiet, logging only. */
  ghost predicate QuietMay<F>(quiet: bool, owner: nat, s: State<F>, t: State<F>) {
    HookMay(owner, false, false, s, t) && (quiet ==> t == s.(trace := t.trace))
  }

  /** Hooks that call next once, with their own mutation, and return its answer. */
  ghost function PassingLaw<F(!new)>(quiet: bool, owner: nat): Law<State<F>, Result> {
    Law((s, t) => QuietMay(quiet, owner, s, t), (s, t) => QuietMay(quiet, owner, s, t), true, PassedOn<Result>, true)
  }

  lemma PassingLawOrdered<F(!new)>(quiet: bool, owner: nat)
    ensures Ordered(PassingLaw<F>(quiet, owner))
  {
    var law := PassingLaw<F>(quiet, owner);
    forall s: State<F>, t, u | QuietMay(quiet, owner, s, t) && QuietMay(quiet, owner, t, u)
      ensures QuietMay(quiet, owner, s, u)
    {
      HookMayTransitive(owner, false, false, s, t, u);
    }
    assert Preorder(law.before) && Preorder(law.after);
  }

  /** The hooks of the builders before i pass answers on. */
  ghost predicate OuterPass<F(!new)>(hooks: seq<seq<MutationHook<F>>>, quiet: bool, i: nat)
    requires i <= |hooks|
  {
    forall j :: 0 <= j < i ==> AllLawful(hooks[j], PassingLaw(quiet, j))
  }

  /** What refuses first, going inwards from builder j: a failing check of a builder before i,
      or the hook of builder i. */
  function FirstRefusal<F>(c: Setup<F>, s: State<F>, j: nat, i: nat, e: Error): Error
    requires j <= i <= |s.current| && forall k :: 0 <= k < |s.current| ==> s.current[k] in s.muts
    decreases i - j
  {
    if j == i then e
    else
      match c.check(s.muts[s.current[j]].fields)
      case Some(name) => Validation(name)
      case None => FirstRefusal(c, s, j + 1, i, e)
  }

  /** An error, and nothing stored. The error is the hook's or that of a check; which one is
      known beforehand if hooks are quiet. */
  ghost predicate Refused<F>(c: Setup<F>, quiet: bool, s: State<F>, end: (State<F>, Outcome<Result>), j: nat, i: nat, e: Error)
    requires j <= i <= |s.current| && forall k :: 0 <= k < |s.current| ==> s.current[k] in s.muts
  {
    && end.1.Returned? && end.1.r.Err? && end.0.rows == s.rows
    && (end.1.r.e == e || end.1.r.e.Validation?)
    && (quiet ==> end.1.r.e == FirstRefusal(c, s, j, i, e))
  }

  lemma {:induction false} SameRefusal<F>(c: Setup<F>, s: State<F>, t: State<F>, j: nat, i: nat, e: Error)
    requires j <= i <= |s.current| && (forall k :: 0 <= k < |s.current| ==> s.current[k] in s.muts)
    requires t.current == s.current && t.muts == s.muts
    ensures FirstRefusal(c, t, j, i, e) == FirstRefusal(c, s, j, i, e)
    decreases i - j
  {
    if j < i {
      SameRefusal(c, s, t, j + 1, i, e);
    }
  }

  lemma FixedErrorRefuses<F(!new)>(e: Error, next: Mutator<F>, m: nat, s: State<F>)
    ensures Valid(FixedError<F>(e)) && Wrap(FixedError<F>(e), next)(m, s) == (s, Returned(Err(e)))
  {
  }

  /** Hooks that pass answers on around one that refuses. */
  lemma RefusingChain<F(!new)>(
    outer: seq<MutationHook<F>>, e: Error, rest: seq<MutationHook<F>>, quiet: bool, owner: nat, inner: Mutator<F>,
    m: nat, s: State<F>)
    requires AllValid(outer) && AllValid(rest) && AllLawful(outer, PassingLaw(quiet, owner))
    ensures AllValid(outer + ([FixedError(e)] + rest))
    ensures var end := Fold(outer + ([FixedError(e)] + rest), inner)(m, s);
      QuietMay(quiet, owner, s, end.0) && end.1 == Returned(Err(e))
  {
    var no: seq<MutationHook<F>> := [FixedError(e)] + rest;
    FixedErrorRefuses(e, inner, m, s);
    FoldConcat(outer, no, inner);
    var base := Fold(no, inner);
    var law := PassingLaw<F>(quiet, owner);
    PassingLawOrdered<F>(quiet, owner);
    var site := FoldAround(outer, law, base, m, s);
    FixedErrorRefuses(e, Fold(no[1..], inner), site.arg, site.before);
    assert base(site.arg, site.before) == (site.before, Returned(Err(e)));
    assert law.before(s, site.before) && law.after(site.before, Fold(outer, base)(m, s).0);
    HookMayTransitive(owner, false, false, s, site.before, Fold(outer, base)(m, s).0);
  }

  /** Builder i's hooks are some that pass answers on, one that refuses, and others. */
  ghost predicate RefusesAt<F(!new)>(
    hooks: seq<seq<MutationHook<F>>>, quiet: bool, i: nat, outer: seq<MutationHook<F>>, e: Error, rest: seq<MutationHook<F>>)
  {
    && i < |hooks| && OuterPass(hooks, quiet, i)
    && AllValid(outer) && AllValid(rest) && AllLawful(outer, PassingLaw(quiet, i))
    && hooks[i] == outer + ([FixedError(e)] + rest)
  }

  lemma {:induction false} InnerRefused<F(!new)>(
    c: Setup<F>, hooks: seq<seq<MutationHook<F>>>, quiet: bool, j: nat, i: nat,
    outer: seq<MutationHook<F>>, e: Error, rest: seq<MutationHook<F>>, s: State<F>)
    requires StoreContract(c) && AllBuildersValid(hooks) && RefusesAt(hooks, quiet, i, outer, e, rest)
    requires j < i && Fits(s, |hooks|) && SpecsBuilt(s, j)
    ensures Refused(c, quiet, s, Inner(c, hooks, j, s.current[j], s), j, i, e)
    decreases i - j, 0
  {
    var m := s.current[j];
    if c.check(s.muts[m].fields).None? {
      HandOverKeeps(s, j, m, |hooks|);
      var h := HandOver(s, j, m);
      assert h.current == s.current && h.muts == s.muts;
      MutateRefused(c, hooks, quiet, j + 1, i, outer, e, rest, h);
      SameRefusal(c, s, h, j + 1, i, e);
    }
  }

  lemma {:induction false} MutateRefused<F(!new)>(
    c: Setup<F>, hooks: seq<seq<MutationHook<F>>>, quiet: bool, j: nat, i: nat,
    outer: seq<MutationHook<F>>, e: Error, rest: seq<MutationHook<F>>, s: State<F>)
    requires StoreContract(c) && AllBuildersValid(hooks) && RefusesAt(hooks, quiet, i, outer, e, rest)
    requires j <= i && Fits(s, |hooks|) && SpecsBuilt(s, j)
    ensures Refused(c, quiet, s, Mutate(c, hooks, j)(s.current[j], s), j, i, e)
    decreases i - j, 1
  {
    var m := s.current[j];
    var inner: Mutator<F> := (m: nat, x: State<F>) => Inner(c, hooks, j, m, x);
    assert Mutate(c, hooks, j) == Fold(hooks[j], inner);
    if j == i {
      RefusingChain(outer, e, rest, quiet, i, inner, m, s);
    } else {
      PassingLawOrdered<F>(quiet, j);
      var site := FoldAround(hooks[j], PassingLaw<F>(quiet, j), inner, m, s);
      var x := site.before;
      assert QuietMay(quiet, j, s, x) && site.arg == m;
      InnerRefused(c, hooks, quiet, j, i, outer, e, rest, x);
      if quiet {
        SameRefusal(c, s, x, j, i, e);
      }
    }
  }

  /** A hook of any builder refuses, the hooks around it and those of the builders before it
      call next once and pass its answer on: the bulk fails and nothing is stored, whatever
      the hooks of later builders are. If those hooks only log, the error is that of the first
      failing check of an earlier builder, and the hook's if there is none. */
  lemma AnyBuilderCanRefuse<F(!new)>(
    c: Setup<F>, hooks: seq<seq<MutationHook<F>>>, quiet: bool, i: nat,
    outer: seq<MutationHook<F>>, e: Error, rest: seq<MutationHook<F>>, s: State<F>)
    requires Ready(c, hooks, s) && RefusesAt(hooks, quiet, i, outer, e, rest)
    ensures var (t, o) := BulkRun(c, hooks, s);
      && t.rows == s.rows && o.Returned? && o.r.Failed? && (o.r.e == e || o.r.e.Validation?)
      && (quiet ==> o.r.e == FirstRefusal(c, Prepared(c, s), 0, i, e))
  {
    PreparedFits(c, hooks, s);
    MutateRefused(c, hooks, quiet, 0, i, outer, e, rest, Prepared(c, s));
  }

  /** If the builders before i have valid fields, it is the hook's error. */
  lemma {:induction false} ValidFieldsReachTheHook<F>(c: Setup<F>, s: State<F>, j: nat, i: nat, e: Error)
    requires j <= i <= |s.current| && forall k :: 0 <= k < |s.current| ==> s.current[k] in s.muts
    requires forall k :: j <= k < i ==> c.check(s.muts[s.current[k]].fields).None?
    ensures FirstRefusal(c, s, j, i, e) == e
    decreases i - j
  {
    if j < i {
      ValidFieldsReachTheHook(c, s, j + 1, i, e);
    }
  }

  // ---- Hooks that log ----

  /** A line in the log under the builder's name. */
  function Tell<F>(owner: nat): (string, State<F>) -> State<F> {
    (tag: string, s: State<F>) => Log(s, Hooked(owner, tag))
  }

  lemma TellIsQuiet<F>(owner: nat, tag: string, s: State<F>)
    ensures QuietMay(true, owner, s, Tell<F>(owner)(tag, s))
  {
  }

  /** A hook that logs around next is among those that may surround a refusal. */
  lemma LoggingHookPasses<F(!new)>(owner: nat, first: string, last: string, none: Result)
    ensures Valid<nat, State<F>, Result>(TagHook(Tell<F>(owner), first, last, none))
    ensures Lawful<nat, State<F>, Result>(TagHook(Tell<F>(owner), first, last, none), PassingLaw(true, owner))
  {
    var run, law := Tell<F>(owner), PassingLaw<F>(true, owner);
    forall s: State<F>
      ensures law.before(s, run(first, s)) && law.after(s, run(last, s))
    {
      TellIsQuiet(owner, first, s);
      TellIsQuiet(owner, last, s);
    }
    TagHookIsLawful<string, nat, State<F>, Result>(run, first, last, none, law);
  }

  /** The lines of one builder's hooks on the way in, and on the way out. */
  ghost function Befores<F>(owner: nat, tags: seq<(string, string)>): seq<Event<F>> {
    seq(|tags|, i requires 0 <= i < |tags| => Hooked(owner, tags[i].0))
  }

  ghost function Afters<F>(owner: nat, tags: seq<(string, string)>): seq<Event<F>> {
    seq(|tags|, i requires 0 <= i < |tags| => Hooked(owner, tags[|tags| - 1 - i].1))
  }

  function Told<F>(s: State<F>, es: seq<Event<F>>): State<F> {
    s.(trace := s.trace + es)
  }

  lemma ToldThen<F>(s: State<F>, xs: seq<Event<F>>, ys: seq<Event<F>>)
    ensures Told(Told(s, xs), ys) == Told(s, xs + ys) && Told(s, []) == s
  {
    assert s.trace + xs + ys == s.trace + (xs + ys) && s.trace + [] == s.trace;
  }

  /** One builder's hooks log around what they wrap. */
  lemma {:induction false} ThroughTells<F(!new)>(
    owner: nat, tags: seq<(string, string)>, base: Mutator<F>, m: nat, s: State<F>)
    ensures var (t, o) := base(m, Told(s, Befores(owner, tags)));
      Through(Tell<F>(owner), tags, base, m, s) == (if o.Returned? then Told(t, Afters(owner, tags)) else t, o)
    decreases |tags|
  {
    if tags == [] {
      assert Befores<F>(owner, tags) == [] && Afters<F>(owner, tags) == [];
      ToldThen(s, [], []);
      ToldThen(base(m, s).0, [], []);
    } else {
      var (first, last) := tags[0];
      ThroughTells(owner, tags[1..], base, m, Told(s, [Hooked(owner, first)]));
      ToldThen(s, [Hooked(owner, first)], Befores(owner, tags[1..]));
      assert Befores<F>(owner, tags) == [Hooked(owner, first)] + Befores(owner, tags[1..]);
      assert Afters<F>(owner, tags) == Afters(owner, tags[1..]) + [Hooked(owner, last)];
      ToldThen(base(m, Told(s, Befores(owner, tags))).0, Afters(owner, tags[1..]), [Hooked(owner, last)]);
    }
  }

  /** Every builder's hooks log their tags. */
  ghost predicate Logging<F(!new)>(hooks: seq<seq<MutationHook<F>>>, tags: seq<seq<(string, string)>>, none: Result) {
    |hooks| == |tags| && forall j :: 0 <= j < |hooks| ==> TagHooks(hooks[j], Tell<F>(j), tags[j], none)
  }

  /** The events of the builders from j on, on the way in ... */
  ghost function Up<F>(tags: seq<seq<(string, string)>>, j: nat): seq<Event<F>>
    requires j <= |tags|
    decreases |tags| - j
  {
    if j == |tags| then [] else Befores(j, tags[j]) + [Checked(j), SpecBuilt(j)] + Up(tags, j + 1)
  }

  /** ... and on the way out. */
  ghost function Down<F>(tags: seq<seq<(string, string)>>, j: nat): seq<Event<F>>
    requires j <= |tags|
    decreases |tags| - j
  {
    if j == |tags| then [] else Down(tags, j + 1) + Afters(j, tags[j])
  }

  /** `want` are the specs of all builders, and the first j of them have been built. */
  ghost predicate SpecsAre<F>(want: seq<Spec<F>>, s: State<F>, j: nat) {
    && Fits(s, |want|) && j <= |want|
    && (forall k :: 0 <= k < |want| ==> ValidId(s.muts[s.current[k]].id, s.objs) && want[k] == SpecOf(s, s.current[k]))
    && (forall k :: 0 <= k < j ==> s.specs[k] == Some(want[k]))
    && SpecsBuilt(s, j)
  }

  lemma HandOverSpecs<F>(want: seq<Spec<F>>, s: State<F>, j: nat)
    requires SpecsAre(want, s, j) && j < |want|
    ensures SpecsAre(want, HandOver(s, j, s.current[j]), j + 1)
    ensures HandOver(s, j, s.current[j]).trace == s.trace + [Checked(j), SpecBuilt(j)]
    ensures HandOver(s, j, s.current[j]).current == s.current
  {
    var m := s.current[j];
    HandOverKeeps(s, j, m, |want|);
    var h := HandOver(s, j, m);
    assert h.current == s.current && h.muts == s.muts && s.objs <= h.objs;
    forall k | 0 <= k < |want|
      ensures ValidId(h.muts[h.current[k]].id, h.objs) && want[k] == SpecOf(h, h.current[k])
    {
      assert ValidId(s.muts[s.current[k]].id, s.objs);
    }
  }

  lemma CloseTrace<F>(back: bool, n: nat, i: nat, m: nat, below: (State<F>, Outcome<Result>))
    requires i < n
    ensures Close(back, n, i, m, below).0.trace == below.0.trace
    ensures below.1.Returned? && below.1.r.Err? ==> Close(back, n, i, m, below).1 == below.1
    ensures below.1.Panicked? ==> Close(back, n, i, m, below).1.Panicked?
  {
  }

  lemma Regroup<T>(a: seq<T>, b: seq<T>, c: seq<T>, up: seq<T>, x: seq<T>, down: seq<T>, d: seq<T>)
    ensures a + b + c + up + x + down + d == a + (b + c + up) + x + (down + d)
  {
  }

  lemma {:induction false} BelowLogs<F(!new)>(
    c: Setup<F>, hooks: seq<seq<MutationHook<F>>>, tags: seq<seq<(string, string)>>, none: Result, want: seq<Spec<F>>,
    j: nat, s: State<F>)
    requires StoreContract(c) && AllBuildersValid(hooks) && Logging(hooks, tags, none) && |want| == |hooks|
    requires j < |hooks| && SpecsAre(want, s, j + 1)
    requires Below(c, hooks, j, s).1.Returned? && Below(c, hooks, j, s).1.r.Ok?
    ensures Below(c, hooks, j, s).0.trace == s.trace + Up(tags, j + 1) + [Inserted(want)] + Down(tags, j + 1)
    decreases |hooks| - j, 0
  {
    if j + 1 < |hooks| {
      MutateLogs(c, hooks, tags, none, want, j + 1, s);
    } else {
      assert Values(s.specs) == want;
      assert Up<F>(tags, j + 1) == [] && Down<F>(tags, j + 1) == [];
    }
  }

  lemma {:induction false} InnerLogs<F(!new)>(
    c: Setup<F>, hooks: seq<seq<MutationHook<F>>>, tags: seq<seq<(string, string)>>, none: Result, want: seq<Spec<F>>,
    j: nat, s: State<F>)
    requires StoreContract(c) && AllBuildersValid(hooks) && Logging(hooks, tags, none) && |want| == |hooks|
    requires j < |hooks| && SpecsAre(want, s, j)
    requires Inner(c, hooks, j, s.current[j], s).1.Returned? && Inner(c, hooks, j, s.current[j], s).1.r.Ok?
    ensures Inner(c, hooks, j, s.current[j], s).0.trace
         == s.trace + [Checked(j), SpecBuilt(j)] + Up(tags, j + 1) + [Inserted(want)] + Down(tags, j + 1)
    decreases |hooks| - j, 1
  {
    var m := s.current[j];
    InnerOkMeansBelowOk(c, hooks, j, m, s);
    HandOverSpecs(want, s, j);
    var h := HandOver(s, j, m);
    BelowLogs(c, hooks, tags, none, want, j, h);
    CloseTrace(c.readsBack, |hooks|, j, m, Below(c, hooks, j, h));
  }

  lemma {:induction false} MutateLogs<F(!new)>(
    c: Setup<F>, hooks: seq<seq<MutationHook<F>>>, tags: seq<seq<(string, string)>>, none: Result, want: seq<Spec<F>>,
    j: nat, s: State<F>)
    requires StoreContract(c) && AllBuildersValid(hooks) && Logging(hooks, tags, none) && |want| == |hooks|
    requires j < |hooks| && SpecsAre(want, s, j)
    requires Mutate(c, hooks, j)(s.current[j], s).1.Returned? && Mutate(c, hooks, j)(s.current[j], s).1.r.Ok?
    ensures Mutate(c, hooks, j)(s.current[j], s).0.trace == s.trace + Up(tags, j) + [Inserted(want)] + Down(tags, j)
    decreases |hooks| - j, 2
  {
    var m := s.current[j];
    var inner: Mutator<F> := (m: nat, x: State<F>) => Inner(c, hooks, j, m, x);
    assert Mutate(c, hooks, j) == Fold(hooks[j], inner);
    FoldPassesThrough(hooks[j], Tell<F>(j), tags[j], none, inner, m, s);
    ThroughTells(j, tags[j], inner, m, s);
    var x := Told(s, Befores(j, tags[j]));
    assert SpecsAre(want, x, j);
    InnerLogs(c, hooks, tags, none, want, j, x);
    Regroup(s.trace, Befores(j, tags[j]), [Checked(j), SpecBuilt(j)], Up(tags, j + 1), [Inserted(want)],
            Down(tags, j + 1), Afters(j, tags[j]));
  }

  ghost function SpecsOfAll<F>(s: State<F>): (r: seq<Spec<F>>)
    requires ValidIds(s) && forall k :: 0 <= k < |s.current| ==> s.current[k] in s.muts
    ensures |r| == |s.current| && forall k :: 0 <= k < |r| ==> r[k] == SpecOf(s, s.current[k])
  {
    seq(|s.current|, k requires 0 <= k < |s.current| => SpecOf(s, s.current[k]))
  }

  /** Any number of builders, each with any list of hooks that log around next: a successful
      bulk leaves exactly their lines, with check and spec of each builder between its own and
      the next one's, one insert of the builders' specs in the middle, and all of it unwound
      in reverse. */
  lemma EveryHookRunsInPlace<F(!new)>(
    c: Setup<F>, hooks: seq<seq<MutationHook<F>>>, tags: seq<seq<(string, string)>>, none: Result, s: State<F>)
    returns (want: seq<Spec<F>>)
    requires Ready(c, hooks, s) && Logging(hooks, tags, none) && |hooks| > 0
    requires BulkRun(c, hooks, s).1.Returned? && BulkRun(c, hooks, s).1.r.Nodes?
    ensures BulkRun(c, hooks, s).0.trace == s.trace + Up(tags, 0) + [Inserted(want)] + Down(tags, 0)
    ensures ValidIds(Prepared(c, s)) && want == SpecsOfAll(Prepared(c, s))
    ensures forall k :: 0 <= k < |want| ==> want[k].body == Prepared(c, s).muts[s.current[k]].fields
  {
    PreparedFits(c, hooks, s);
    var p := Prepared(c, s);
    want := SpecsOfAll(p);
    MutateLogs(c, hooks, tags, none, want, 0, p);
  }

  /** With one hook per builder the lines on the way in are at fixed places. */
  lemma {:induction false} UpOfOneEach<F>(tags: seq<seq<(string, string)>>, j: nat)
    requires j <= |tags| && forall k :: 0 <= k < |tags| ==> |tags[k]| == 1
    ensures |Up<F>(tags, j)| == 3 * (|tags| - j)
    ensures forall k :: j <= k < |tags| ==>
              && Up<F>(tags, j)[3 * (k - j)] == Hooked(k, tags[k][0].0)
              && Up<F>(tags, j)[3 * (k - j) + 1] == Checked(k) && Up<F>(tags, j)[3 * (k - j) + 2] == SpecBuilt(k)
    decreases |tags| - j
  {
    if j < |tags| {
      UpOfOneEach<F>(tags, j + 1);
      var head: seq<Event<F>> := Befores(j, tags[j]) + [Checked(j), SpecBuilt(j)];
      var up, rest := Up<F>(tags, j), Up<F>(tags, j + 1);
      assert up == head + rest && |head| == 3;
      forall k | j < k < |tags|
        ensures up[3 * (k - j)] == Hooked(k, tags[k][0].0)
        ensures up[3 * (k - j) + 1] == Checked(k) && up[3 * (k - j) + 2] == SpecBuilt(k)
      {
        var i := 3 * (k - (j + 1));
        assert up[3 + i] == rest[i] && up[3 + i + 1] == rest[i + 1] && up[3 + i + 2] == rest[i + 2];
      }
    }
  }

  /** ... and so are those on the way out, in reverse. */
  lemma {:induction false} DownOfOneEach<F>(tags: seq<seq<(string, string)>>, j: nat)
    requires j <= |tags| && forall k :: 0 <= k < |tags| ==> |tags[k]| == 1
    ensures |Down<F>(tags, j)| == |tags| - j
    ensures forall k :: j <= k < |tags| ==> Down<F>(tags, j)[|tags| - 1 - k] == Hooked(k, tags[k][0].1)
    decreases |tags| - j
  {
    if j < |tags| {
      DownOfOneEach<F>(tags, j + 1);
    }
  }
}
