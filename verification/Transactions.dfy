/**
 The transactional client: txDriver makes the builders' own begin, commit and rollback
 into no-ops, and Tx.Commit and Tx.Rollback run their hooks around the driver's call.
 */
module Transactions {
  import opened Wrappers
  import opened Middleware

  type Stmt = int

  datatype Phase = Active | Committed | RolledBack

  /** `db` is the log of statements other connections see; `log` all statements this
      transaction accepted; `pending` those the database has yet to commit. Hooks are held
      by name. */
  datatype Session = Session(
    db: seq<Stmt>, pending: seq<Stmt>, log: seq<Stmt>, phase: Phase, onCommit: seq<nat>, onRollback: seq<nat>)

  datatype Answer = Ok | ErrTxDone | ErrTxStarted | ErrDriver | ErrHook(tag: string)

  type TxHook = Hook<(), Session, Answer>
  type Closer = Handler<(), Session, Answer>

  /** The hooks behind the names, and whether the database accepts a commit. */
  datatype Setup = Setup(code: nat -> TxHook, commitFails: Session -> bool)

  ghost predicate ValidSetup(c: Setup) {
    forall h :: Valid(c.code(h))
  }

  // ---- The driver ----

  /** tx.Exec of the underlying transaction; `fails` is the database's verdict. */
  function Execute(s: Session, stmt: Stmt, fails: bool): (Session, Answer) {
    if !s.phase.Active? then (s, ErrTxDone)
    else if fails then (s, ErrDriver)
    else (s.(pending := s.pending + [stmt], log := s.log + [stmt]), Ok)
  }

  function DriverCommit(c: Setup): Closer {
    (u: (), s: Session) =>
      if !s.phase.Active? then (s, Returned(ErrTxDone))
      else if c.commitFails(s) then (s.(pending := [], phase := RolledBack), Returned(ErrDriver))
      else (s.(db := s.db + s.pending, pending := [], phase := Committed), Returned(Ok))
  }

  function DriverRollback(): Closer {
    (u: (), s: Session) =>
      if !s.phase.Active? then (s, Returned(ErrTxDone)) else (s.(pending := [], phase := RolledBack), Returned(Ok))
  }

  function Named(c: Setup, hs: seq<nat>): (r: seq<TxHook>)
    ensures |r| == |hs| && forall i :: 0 <= i < |hs| ==> r[i] == c.code(hs[i])
  {
    seq(|hs|, i requires 0 <= i < |hs| => c.code(hs[i]))
  }

  /** Closing runs the hooks registered when it starts; those registered meanwhile wait. */
  function Close(c: Setup, s: Session, hs: seq<nat>, base: Closer): (Session, Outcome<Answer>)
    requires ValidSetup(c)
  {
    Fold(Named(c, hs), base)((), s)
  }

  function Begun(db: seq<Stmt>): Session {
    Session(db, [], [], Active, [], [])
  }

  /** What users and builders do through a transactional client, interleaved with what other
      connections commit meanwhile. */
  datatype Action =
    | Run(stmt: Stmt, fails: bool)
    | InnerBegin
    | InnerCommit
    | InnerRollback
    | NestedTx
    | AddOnCommit(h: nat)
    | AddOnRollback(h: nat)
    | Commit
    | Rollback
    | Outside(stmt: Stmt)

  function Step(c: Setup, s: Session, a: Action): (Session, Outcome<Answer>)
    requires ValidSetup(c)
  {
    match a
    case Run(stmt, fails) => var (t, r) := Execute(s, stmt, fails); (t, Returned(r))
    case InnerBegin => (s, Returned(Ok))
    case InnerCommit => (s, Returned(Ok))
    case InnerRollback => (s, Returned(Ok))
    case NestedTx => (s, Returned(ErrTxStarted))
    case AddOnCommit(h) => (s.(onCommit := s.onCommit + [h]), Returned(Ok))
    case AddOnRollback(h) => (s.(onRollback := s.onRollback + [h]), Returned(Ok))
    case Commit => Close(c, s, s.onCommit, DriverCommit(c))
    case Rollback => Close(c, s, s.onRollback, DriverRollback())
    case Outside(stmt) => (s.(db := s.db + [stmt]), Returned(Ok))
  }

  /** The loop that wraps the snapshot of hooks, last to first. */
  method WrapAll(c: Setup, hs: seq<nat>, base: Closer) returns (fn: Closer)
    requires ValidSetup(c)
    ensures fn == Fold(Named(c, hs), base)
  {
    fn := base;
    var i := |hs|;
    while i > 0
      invariant 0 <= i <= |hs|
      invariant fn == Fold(Named(c, hs[i..]), base)
    {
      i := i - 1;
      fn := Wrap(c.code(hs[i]), fn);
      assert Named(c, hs[i..])[1..] == Named(c, hs[i + 1..]);
    }
    assert hs[0..] == hs;
  }

  class TxDriver {
    const setup: Setup
    var session: Session

    constructor (setup: Setup, db: seq<Stmt>)
      ensures session == Begun(db) && this.setup == setup
    {
      this.setup := setup;
      session := Begun(db);
    }

    /** tx.Exec: an accepted statement is the last one of the transaction's log and waits for
        the commit; any other answer leaves the session as it was. Nobody else sees either. */
    method Exec(stmt: Stmt, fails: bool) returns (a: Answer)
      modifies this
      ensures a == Ok <==> old(session).phase.Active? && !fails
      ensures a == ErrTxDone <==> !old(session).phase.Active?
      ensures a == Ok ==> session == old(session).(
                            pending := old(session.pending) + [stmt], log := old(session.log) + [stmt])
      ensures a != Ok ==> session == old(session) && a in {ErrTxDone, ErrDriver}
      ensures ValidSetup(setup) ==> (session, Returned(a)) == Step(setup, old(session), Run(stmt, fails))
    {
      var (s, r) := Execute(session, stmt, fails);
      session, a := s, r;
    }

    /** driver.Tx() hands the driver itself to the builder. */
    method Tx() returns (d: TxDriver)
      ensures d == this
    {
      d := this;
    }

    method InnerCommit() returns (a: Answer)
      ensures a == Ok
    {
      a := Ok;
    }

    method InnerRollback() returns (a: Answer)
      ensures a == Ok
    {
      a := Ok;
    }

    method OnCommit(h: nat)
      modifies this
      ensures session == old(session).(onCommit := old(session.onCommit) + [h])
    {
      session := session.(onCommit := session.onCommit + [h]);
    }

    method OnRollback(h: nat)
      modifies this
      ensures session == old(session).(onRollback := old(session.onRollback) + [h])
    {
      session := session.(onRollback := session.onRollback + [h]);
    }

    method Commit() returns (o: Outcome<Answer>)
      requires ValidSetup(setup)
      modifies this
      ensures (session, o) == Close(setup, old(session), old(session.onCommit), DriverCommit(setup))
    {
      var hooks := session.onCommit;
      var fn := WrapAll(setup, hooks, DriverCommit(setup));
      var (s, r) := fn((), session);
      session, o := s, r;
    }

    method Rollback() returns (o: Outcome<Answer>)
      requires ValidSetup(setup)
      modifies this
      ensures (session, o) == Close(setup, old(session), old(session.onRollback), DriverRollback())
    {
      var hooks := session.onRollback;
      var fn := WrapAll(setup, hooks, DriverRollback());
      var (s, r) := fn((), session);
      session, o := s, r;
    }
  }

  // ---- Whole runs ----

  function After(c: Setup, s: Session, acts: seq<Action>): Session
    requires ValidSetup(c)
  {
    if acts == [] then s else Step(c, After(c, s, acts[..|acts| - 1]), acts[|acts| - 1]).0
  }

  /** The statements other connections committed, in order. */
  function FromOutside(acts: seq<Action>): seq<Stmt> {
    if acts == [] then []
    else FromOutside(acts[..|acts| - 1]) + if acts[|acts| - 1].Outside? then [acts[|acts| - 1].stmt] else []
  }

  /** What a hook does by itself: run statements in the transaction and register hooks. */
  ghost predicate HookMay(s: Session, t: Session) {
    && t.db == s.db && t.phase == s.phase
    && s.log <= t.log && t.pending == s.pending + t.log[|s.log|..]
    && (!s.phase.Active? ==> t.log == s.log)
    && s.onCommit <= t.onCommit && s.onRollback <= t.onRollback
  }

  ghost function TxLaw(once: bool, answers: (Option<Answer>, Answer) -> bool): Law<Session, Answer> {
    Law((s, t) => HookMay(s, t), (s, t) => HookMay(s, t), once, answers, false)
  }

  /** Any number of calls of next, and any answer. */
  ghost function HookLaw(): Law<Session, Answer> {
    TxLaw(false, AnyAnswer<Answer>)
  }

  /** The hooks behind these names keep a law. */
  ghost predicate HooksLawful(c: Setup, hs: seq<nat>, law: Law<Session, Answer>) {
    forall h :: h in hs ==> Lawful(c.code(h), law)
  }

  ghost predicate LawfulSetup(c: Setup) {
    ValidSetup(c) && forall h :: Lawful(c.code(h), HookLaw())
  }

  function RunStatement(stmt: Stmt, s: Session): Session {
    Execute(s, stmt, false).0
  }

  lemma RunStatementAllowed(stmt: Stmt, s: Session)
    ensures HookMay(s, RunStatement(stmt, s))
  {
  }

  function StatementHook(first: Stmt, last: Stmt, none: Answer): TxHook {
    TagHook(RunStatement, first, last, none)
  }

  /** A hook that runs a statement, calls next, runs another and returns the answer is lawful. */
  lemma StatementHookIsLawful(first: Stmt, last: Stmt, none: Answer)
    ensures Valid(StatementHook(first, last, none)) && Lawful(StatementHook(first, last, none), HookLaw())
  {
    var law := HookLaw();
    var f, g := (s: Session) => RunStatement(first, s), (s: Session) => RunStatement(last, s);
    forall s: Session
      ensures law.before(s, f(s))
    {
      RunStatementAllowed(first, s);
    }
    forall s: Session
      ensures law.after(s, g(s))
    {
      RunStatementAllowed(last, s);
    }
    PassOnIsLawful<(), Session, Answer>(f, g, none, law);
  }

  /** While the transaction is open `before` is all that is visible; a commit adds the whole
      log at its end; afterwards only `later` follows. */
  ghost predicate Atomic(s: Session, before: seq<Stmt>, later: seq<Stmt>) {
    match s.phase
    case Active => s.db == before && later == [] && s.pending == s.log
    case Committed => s.db == before + s.log + later && s.pending == []
    case RolledBack => s.db == before + later && s.pending == []
  }

  /** Closing, whatever the hooks do and however often they call next, keeps the split. */
  lemma CloseKeepsAtomic(c: Setup, s: Session, hs: seq<nat>, base: Closer, before: seq<Stmt>, later: seq<Stmt>)
    requires LawfulSetup(c) && (base == DriverCommit(c) || base == DriverRollback()) && Atomic(s, before, later)
    ensures Atomic(Close(c, s, hs, base).0, before, later)
  {
    var inv := (x: Session) => Atomic(x, before, later);
    forall x, y | inv(x) && HookMay(x, y)
      ensures inv(y)
    {
      if x.phase.Active? {
        assert y.log == x.log + y.log[|x.log|..];
      } else {
        assert y.log[|x.log|..] == [];
      }
    }
    forall u: (), x | inv(x)
      ensures inv(base(u, x).0)
    {
      assert before + x.log + [] == before + x.log && before + [] == before;
    }
    FoldKeeps(Named(c, hs), HookLaw(), inv, (), base, s);
  }

  /** Over every run: what other connections see are their own statements in order, with the
      transaction's statements as one block in between if it committed, and without any of
      them otherwise. */
  lemma {:induction false} TransactionIsAtomic(c: Setup, db: seq<Stmt>, acts: seq<Action>)
    returns (before: seq<Stmt>, later: seq<Stmt>)
    requires LawfulSetup(c)
    ensures Atomic(After(c, Begun(db), acts), before, later)
    ensures before + later == db + FromOutside(acts)
  {
    if acts == [] {
      before, later := db, [];
    } else {
      var init, a := acts[..|acts| - 1], acts[|acts| - 1];
      before, later := TransactionIsAtomic(c, db, init);
      var s := After(c, Begun(db), init);
      if a.Outside? {
        if s.phase.Active? {
          before := before + [a.stmt];
        } else {
          assert before + (later + [a.stmt]) == (before + later) + [a.stmt];
          assert before + s.log + (later + [a.stmt]) == before + s.log + later + [a.stmt];
          later := later + [a.stmt];
        }
        assert db + FromOutside(acts) == db + FromOutside(init) + [a.stmt];
      } else {
        assert FromOutside(acts) == FromOutside(init);
        if a.Commit? {
          CloseKeepsAtomic(c, s, s.onCommit, DriverCommit(c), before, later);
        } else if a.Rollback? {
          CloseKeepsAtomic(c, s, s.onRollback, DriverRollback(), before, later);
        }
      }
    }
  }

  lemma CloseFinal(c: Setup, s: Session, hs: seq<nat>, base: Closer)
    requires LawfulSetup(c) && (base == DriverCommit(c) || base == DriverRollback()) && !s.phase.Active?
    ensures Close(c, s, hs, base).0.db == s.db && Close(c, s, hs, base).0.phase == s.phase
    ensures Close(c, s, hs, base).0.log == s.log
  {
    var inv := (x: Session) => x.db == s.db && x.phase == s.phase && x.log == s.log;
    FoldKeeps(Named(c, hs), HookLaw(), inv, (), base, s);
  }

  lemma StepClosed(c: Setup, s: Session, a: Action)
    requires LawfulSetup(c) && !s.phase.Active?
    ensures Step(c, s, a).0.phase == s.phase && Step(c, s, a).0.log == s.log
    ensures Step(c, s, a).0.db == s.db + if a.Outside? then [a.stmt] else []
  {
    if a.Commit? {
      CloseFinal(c, s, s.onCommit, DriverCommit(c));
    } else if a.Rollback? {
      CloseFinal(c, s, s.onRollback, DriverRollback());
    }
  }

  /** A closed transaction stays as it is: no action reopens it or adds to its log. */
  lemma {:induction false} ClosedIsFinal(c: Setup, s: Session, acts: seq<Action>)
    requires LawfulSetup(c) && !s.phase.Active?
    ensures After(c, s, acts).phase == s.phase && After(c, s, acts).log == s.log
    ensures After(c, s, acts).db == s.db + FromOutside(acts)
  {
    if acts != [] {
      var init := acts[..|acts| - 1];
      ClosedIsFinal(c, s, init);
      StepClosed(c, After(c, s, init), acts[|acts| - 1]);
    }
  }

  /** Only Commit, on an open transaction, makes its statements visible, and nobody else's
      action does. */
  lemma OnlyCommitPublishes(c: Setup, s: Session, a: Action)
    requires LawfulSetup(c) && s.pending == s.log && s.phase.Active?
    ensures !a.Commit? && !a.Outside? ==> Step(c, s, a).0.db == s.db
    ensures Step(c, s, a).0.phase.Committed? ==> a.Commit? && Step(c, s, a).0.db == s.db + Step(c, s, a).0.log
  {
    if a.Commit? {
      CloseKeepsAtomic(c, s, s.onCommit, DriverCommit(c), s.db, []);
    } else if a.Rollback? {
      RollbackNeverCommits(c, s);
    }
  }

  lemma RollbackNeverCommits(c: Setup, s: Session)
    requires LawfulSetup(c) && !s.phase.Committed?
    ensures Step(c, s, Rollback).0.db == s.db && !Step(c, s, Rollback).0.phase.Committed?
  {
    var inv := (x: Session) => x.db == s.db && !x.phase.Committed?;
    FoldKeeps(Named(c, s.onRollback), HookLaw(), inv, (), DriverRollback(), s);
  }

  /** Of what builders ask of the client besides statements, only a nested transaction is
      refused, and none of it touches the database or the open transaction. */
  lemma OnlyNestingIsRefused(c: Setup, s: Session, a: Action)
    requires ValidSetup(c) && !a.Run? && !a.Commit? && !a.Rollback? && !a.Outside?
    ensures Step(c, s, a).1 == Returned(Ok) <==> !a.NestedTx?
    ensures a.NestedTx? ==> Step(c, s, a).1 == Returned(ErrTxStarted)
    ensures var t := Step(c, s, a).0; t.db == s.db && t.pending == s.pending && t.log == s.log && t.phase == s.phase
  {
  }

  // ---- Closing ends the transaction ----

  lemma HookMayTransitive(s: Session, t: Session, u: Session)
    requires HookMay(s, t) && HookMay(t, u)
    ensures HookMay(s, u)
  {
    assert u.log[|s.log|..] == t.log[|s.log|..] + u.log[|t.log|..];
  }

  lemma TxLawOrdered(answers: (Option<Answer>, Answer) -> bool)
    requires Composes(answers)
    ensures Ordered(TxLaw(true, answers))
  {
    var law := TxLaw(true, answers);
    forall s: Session, t, u | HookMay(s, t) && HookMay(t, u)
      ensures HookMay(s, u)
    {
      HookMayTransitive(s, t, u);
    }
    assert Preorder(law.before) && Preorder(law.after);
  }

  /** The transaction is over, nothing of it is left to commit, and others see what they saw. */
  ghost predicate Dropped(s: Session, t: Session) {
    t.phase.RolledBack? && t.pending == [] && t.db == s.db
  }

  /** A rollback of an open transaction whose hooks call next, once or more often, ends it and
      drops its statements. */
  lemma RollbackEnds(c: Setup, s: Session)
    requires LawfulSetup(c) && s.phase.Active? && HooksLawful(c, s.onRollback, TxLaw(false, Called<Answer>))
    ensures Dropped(s, Step(c, s, Rollback).0) && Step(c, s, Rollback).1.Returned?
  {
    var goal := (x: Session) => Dropped(s, x);
    var inv := (x: Session) => Dropped(s, x) || (x.phase.Active? && x.db == s.db);
    var law := TxLaw(false, Called<Answer>);
    forall x, y | HookMay(x, y)
      ensures goal(x) ==> goal(y)
      ensures inv(x) ==> inv(y)
    {
      if !x.phase.Active? {
        assert y.log[|x.log|..] == [];
      }
    }
    FoldReaches(Named(c, s.onRollback), law, inv, goal, (), DriverRollback(), s);
    FoldEnds(Named(c, s.onRollback), law, inv, (x: Session) => false, (), DriverRollback(), s);
  }

  /** With hooks that call next once and pass its answer on, the answer is Ok. */
  lemma RollbackAnswers(c: Setup, s: Session)
    requires LawfulSetup(c) && s.phase.Active? && HooksLawful(c, s.onRollback, TxLaw(true, PassedOn<Answer>))
    ensures Step(c, s, Rollback).1 == Returned(Ok)
  {
    TxLawOrdered(PassedOn<Answer>);
    var site := FoldAround(Named(c, s.onRollback), TxLaw(true, PassedOn<Answer>), DriverRollback(), (), s);
  }

  lemma ClosedCommitRefused(c: Setup, s: Session)
    requires LawfulSetup(c) && !s.phase.Active? && HooksLawful(c, s.onCommit, TxLaw(true, PassedOn<Answer>))
    ensures Step(c, s, Commit).1 == Returned(ErrTxDone)
  {
    TxLawOrdered(PassedOn<Answer>);
    var site := FoldAround(Named(c, s.onCommit), TxLaw(true, PassedOn<Answer>), DriverCommit(c), (), s);
  }

  /** Whatever is done after such a rollback, the transaction stays rolled back and nothing of
      it becomes visible; a later commit or statement is refused. */
  lemma RolledBackForGood(c: Setup, s: Session, acts: seq<Action>)
    requires LawfulSetup(c) && s.phase.Active? && HooksLawful(c, s.onRollback, TxLaw(false, Called<Answer>))
    ensures var t := After(c, Step(c, s, Rollback).0, acts);
      && t.phase.RolledBack? && t.db == s.db + FromOutside(acts)
      && (forall stmt, fails :: Step(c, t, Run(stmt, fails)) == (t, Returned(ErrTxDone)))
      && (HooksLawful(c, t.onCommit, TxLaw(true, PassedOn<Answer>)) ==> Step(c, t, Commit).1 == Returned(ErrTxDone))
  {
    RollbackEnds(c, s);
    ClosedIsFinal(c, Step(c, s, Rollback).0, acts);
    var t := After(c, Step(c, s, Rollback).0, acts);
    if HooksLawful(c, t.onCommit, TxLaw(true, PassedOn<Answer>)) {
      ClosedCommitRefused(c, t);
    }
  }

  /** The database's commit between the effects of hooks. */
  lemma CommitBetween(c: Setup, s: Session, x: Session, t: Session)
    requires s.phase.Active? && s.pending == s.log && HookMay(s, x) && HookMay(DriverCommit(c)((), x).0, t)
    ensures DriverCommit(c)((), x).1 == Returned(if c.commitFails(x) then ErrDriver else Ok)
    ensures !c.commitFails(x) ==> t.phase.Committed? && s.log <= t.log && t.db == s.db + t.log && t.pending == []
    ensures c.commitFails(x) ==> Dropped(s, t)
  {
    assert x.log == s.log + x.log[|s.log|..];
    assert t.log[|DriverCommit(c)((), x).0.log|..] == [];
  }

  /** A commit of an open transaction whose hooks call next once and pass its answer on: Ok
      means committed, with the statements of the transaction and of its hooks, and nothing
      else, added to what others see; any other answer is the database's, and then the
      transaction is rolled back. */
  lemma CommitAnswers(c: Setup, s: Session)
    requires LawfulSetup(c) && s.phase.Active? && s.pending == s.log
    requires HooksLawful(c, s.onCommit, TxLaw(true, PassedOn<Answer>))
    ensures var (t, o) := Step(c, s, Commit);
      && o.Returned? && (o.r == Ok || o.r == ErrDriver)
      && (o.r == Ok ==> t.phase.Committed? && s.log <= t.log && t.db == s.db + t.log && t.pending == [])
      && (o.r == ErrDriver ==> Dropped(s, t))
      && (o.r == ErrDriver ==> exists x :: c.commitFails(x))
      && (o.r == Ok ==> exists x :: !c.commitFails(x))
  {
    TxLawOrdered(PassedOn<Answer>);
    var site := FoldAround(Named(c, s.onCommit), TxLaw(true, PassedOn<Answer>), DriverCommit(c), (), s);
    CommitBetween(c, s, site.before, Step(c, s, Commit).0);
  }

  // ---- Hooks run ----

  /** The statements that hooks run on the way in, and on the way out. */
  function Firsts(tags: seq<(Stmt, Stmt)>): (r: seq<Stmt>)
    ensures |r| == |tags| && forall i :: 0 <= i < |r| ==> r[i] == tags[i].0
  {
    seq(|tags|, i requires 0 <= i < |tags| => tags[i].0)
  }

  function Lasts(tags: seq<(Stmt, Stmt)>): (r: seq<Stmt>)
    ensures |r| == |tags| && forall i :: 0 <= i < |r| ==> r[i] == tags[|tags| - 1 - i].1
  {
    seq(|tags|, i requires 0 <= i < |tags| => tags[|tags| - 1 - i].1)
  }

  /** Each name stands for a hook that runs two statements around next and passes its answer on. */
  ghost predicate Tagged(c: Setup, hs: seq<nat>, tags: seq<(Stmt, Stmt)>, none: Answer) {
    TagHooks(Named(c, hs), RunStatement, tags, none)
  }

  function Ran(s: Session, stmts: seq<Stmt>): Session {
    s.(pending := s.pending + stmts, log := s.log + stmts)
  }

  lemma RanThen(s: Session, xs: seq<Stmt>, ys: seq<Stmt>)
    ensures Ran(Ran(s, xs), ys) == Ran(s, xs + ys) && Ran(s, []) == s
  {
    assert s.pending + xs + ys == s.pending + (xs + ys) && s.log + xs + ys == s.log + (xs + ys);
    assert s.pending + [] == s.pending && s.log + [] == s.log;
  }

  lemma RunStatementRan(stmt: Stmt, s: Session)
    ensures RunStatement(stmt, s) == if s.phase.Active? then Ran(s, [stmt]) else s
  {
  }

  /** Hooks around a handler that closes the transaction: their first statements run in the
      order of registration, and the last ones come too late. */
  lemma {:induction false} ThroughClose(tags: seq<(Stmt, Stmt)>, base: Closer, s: Session)
    requires s.phase.Active? && forall x: Session :: !base((), x).0.phase.Active?
    ensures Through(RunStatement, tags, base, (), s) == base((), Ran(s, Firsts(tags)))
    decreases |tags|
  {
    if tags == [] {
      assert Firsts(tags) == [];
      RanThen(s, [], []);
    } else {
      var (first, last) := tags[0];
      assert Firsts(tags) == [first] + Firsts(tags[1..]);
      RunStatementRan(first, s);
      ThroughClose(tags[1..], base, Ran(s, [first]));
      RanThen(s, [first], Firsts(tags[1..]));
      RunStatementRan(last, base((), Ran(s, Firsts(tags))).0);
    }
  }

  /** Hooks around one that refuses: the transaction stays open with what they ran. */
  lemma {:induction false} ThroughRefusal(tags: seq<(Stmt, Stmt)>, base: Closer, a: Answer, s: Session)
    requires s.phase.Active? && forall x: Session :: base((), x) == (x, Returned(a))
    ensures Through(RunStatement, tags, base, (), s) == (Ran(s, Firsts(tags) + Lasts(tags)), Returned(a))
    decreases |tags|
  {
    if tags == [] {
      assert Firsts(tags) + Lasts(tags) == [];
      RanThen(s, [], []);
    } else {
      var (first, last) := tags[0];
      RunStatementRan(first, s);
      ThroughRefusal(tags[1..], base, a, Ran(s, [first]));
      var mid := Firsts(tags[1..]) + Lasts(tags[1..]);
      assert Firsts(tags) + Lasts(tags) == [first] + mid + [last];
      RanThen(s, [first], mid);
      RanThen(s, [first] + mid, [last]);
      RunStatementRan(last, Ran(s, [first] + mid));
    }
  }

  /** Closing with such hooks is closing after their first statements. */
  lemma HooksRunAroundClose(c: Setup, hs: seq<nat>, tags: seq<(Stmt, Stmt)>, none: Answer, base: Closer, s: Session)
    requires ValidSetup(c) && Tagged(c, hs, tags, none) && s.phase.Active?
    requires base == DriverCommit(c) || base == DriverRollback()
    ensures Close(c, s, hs, base) == base((), Ran(s, Firsts(tags)))
  {
    FoldPassesThrough(Named(c, hs), RunStatement, tags, none, base, (), s);
    ThroughClose(tags, base, s);
  }

  /** A hook that refuses, without calling next. */
  function Refuse(a: Answer): TxHook {
    Body(Program(0, (u: (), s: Session, hist: seq<Seen<Session, Answer>>) => Return(a)))
  }

  lemma RefuseRefuses(a: Answer, next: Closer, s: Session)
    ensures Valid(Refuse(a)) && Wrap(Refuse(a), next)((), s) == (s, Returned(a))
  {
  }

  lemma NamedConcat(c: Setup, xs: seq<nat>, ys: seq<nat>)
    ensures Named(c, xs + ys) == Named(c, xs) + Named(c, ys)
  {
  }

  /** A refusing hook: those before it run around it, those behind it do not run, and the
      transaction stays open with what they ran. */
  lemma RefusalKeepsOpen(
    c: Setup, hs: seq<nat>, tags: seq<(Stmt, Stmt)>, none: Answer, no: nat, a: Answer, rest: seq<nat>, base: Closer,
    s: Session)
    requires ValidSetup(c) && Tagged(c, hs, tags, none) && s.phase.Active? && c.code(no) == Refuse(a)
    ensures Close(c, s, hs + ([no] + rest), base) == (Ran(s, Firsts(tags) + Lasts(tags)), Returned(a))
  {
    NamedConcat(c, hs, [no] + rest);
    FoldConcat(Named(c, hs), Named(c, [no] + rest), base);
    var inner := Fold(Named(c, [no] + rest), base);
    assert Named(c, [no] + rest)[0] == Refuse(a);
    forall x: Session
      ensures inner((), x) == (x, Returned(a))
    {
      RefuseRefuses(a, Fold(Named(c, [no] + rest)[1..], base), x);
    }
    FoldPassesThrough(Named(c, hs), RunStatement, tags, none, inner, (), s);
    ThroughRefusal(tags, inner, a, s);
  }

  /** OnCommit of each name in turn. */
  function Adds(hs: seq<nat>): seq<Action> {
    seq(|hs|, i requires 0 <= i < |hs| => AddOnCommit(hs[i]))
  }

  lemma {:induction false} AddsRegister(c: Setup, s: Session, hs: seq<nat>)
    requires ValidSetup(c)
    ensures After(c, s, Adds(hs)) == s.(onCommit := s.onCommit + hs)
  {
    if hs == [] {
      assert s.onCommit + hs == s.onCommit;
    } else {
      var init, h := hs[..|hs| - 1], hs[|hs| - 1];
      AddsRegister(c, s, init);
      assert Adds(hs)[..|hs| - 1] == Adds(init);
      assert s.onCommit + hs == s.onCommit + init + [h];
    }
  }

  // ---- The same builders with and without a transaction ----

  /** A builder's own transaction: statements, then its commit or its rollback. */
  datatype Block = Block(stmts: seq<Stmt>, commits: bool)

  function BlockActions(b: Block): seq<Action> {
    [InnerBegin] + Runs(b.stmts) + [if b.commits then InnerCommit else InnerRollback]
  }

  function Runs(stmts: seq<Stmt>): seq<Action> {
    if stmts == [] then [] else Runs(stmts[..|stmts| - 1]) + [Run(stmts[|stmts| - 1], false)]
  }

  function AllActions(bs: seq<Block>): seq<Action> {
    if bs == [] then [] else AllActions(bs[..|bs| - 1]) + BlockActions(bs[|bs| - 1])
  }

  /** On the plain driver each block is a transaction of its own. */
  function Direct(db: seq<Stmt>, bs: seq<Block>): seq<Stmt> {
    if bs == [] then db
    else Direct(db, bs[..|bs| - 1]) + if bs[|bs| - 1].commits then bs[|bs| - 1].stmts else []
  }

  function AllStmts(bs: seq<Block>): seq<Stmt> {
    if bs == [] then [] else AllStmts(bs[..|bs| - 1]) + bs[|bs| - 1].stmts
  }

  lemma {:induction false} AfterConcat(c: Setup, s: Session, xs: seq<Action>, ys: seq<Action>)
    requires ValidSetup(c)
    ensures After(c, s, xs + ys) == After(c, After(c, s, xs), ys)
  {
    if ys == [] {
      assert xs + ys == xs;
    } else {
      assert (xs + ys)[..|xs + ys| - 1] == xs + ys[..|ys| - 1];
      AfterConcat(c, s, xs, ys[..|ys| - 1]);
    }
  }

  lemma {:induction false} RunsAppend(c: Setup, s: Session, stmts: seq<Stmt>)
    requires ValidSetup(c) && s.phase.Active?
    ensures After(c, s, Runs(stmts)) == s.(pending := s.pending + stmts, log := s.log + stmts)
  {
    if stmts == [] {
      assert s.pending + stmts == s.pending && s.log + stmts == s.log;
    } else {
      var init := stmts[..|stmts| - 1];
      RunsAppend(c, s, init);
      assert Runs(stmts)[..|Runs(stmts)| - 1] == Runs(init);
      assert stmts == init + [stmts[|stmts| - 1]];
      assert s.pending + stmts == s.pending + init + [stmts[|stmts| - 1]];
      assert s.log + stmts == s.log + init + [stmts[|stmts| - 1]];
    }
  }

  lemma BlockAppends(c: Setup, s: Session, b: Block)
    requires ValidSetup(c) && s.phase.Active?
    ensures After(c, s, BlockActions(b)) == s.(pending := s.pending + b.stmts, log := s.log + b.stmts)
  {
    var last := if b.commits then InnerCommit else InnerRollback;
    AfterConcat(c, s, [InnerBegin] + Runs(b.stmts), [last]);
    AfterConcat(c, s, [InnerBegin], Runs(b.stmts));
    RunsAppend(c, s, b.stmts);
    var m := After(c, s, Runs(b.stmts));
    assert [InnerBegin][..0] == [] && [last][..0] == [];
    assert After(c, s, [InnerBegin]) == s && After(c, m, [last]) == m;
  }

  lemma BlockAfter(c: Setup, s: Session, done: seq<Stmt>, b: Block)
    requires ValidSetup(c) && s.phase.Active?
    ensures After(c, s.(pending := s.pending + done, log := s.log + done), BlockActions(b))
         == s.(pending := s.pending + (done + b.stmts), log := s.log + (done + b.stmts))
  {
    BlockAppends(c, s.(pending := s.pending + done, log := s.log + done), b);
    assert s.pending + done + b.stmts == s.pending + (done + b.stmts);
    assert s.log + done + b.stmts == s.log + (done + b.stmts);
  }

  lemma {:induction false} BlocksAppend(c: Setup, s: Session, bs: seq<Block>)
    requires ValidSetup(c) && s.phase.Active?
    ensures After(c, s, AllActions(bs)) == s.(pending := s.pending + AllStmts(bs), log := s.log + AllStmts(bs))
  {
    if bs == [] {
      assert s.pending + [] == s.pending && s.log + [] == s.log;
    } else {
      var init, b := bs[..|bs| - 1], bs[|bs| - 1];
      BlocksAppend(c, s, init);
      AfterConcat(c, s, AllActions(init), BlockActions(b));
      BlockAfter(c, s, AllStmts(init), b);
    }
  }

  lemma {:induction false} DirectDropsRolledBack(db: seq<Stmt>, bs: seq<Block>)
    ensures |Direct(db, bs)| <= |db| + |AllStmts(bs)|
    ensures (forall i :: 0 <= i < |bs| && !bs[i].commits ==> bs[i].stmts == []) ==> Direct(db, bs) == db + AllStmts(bs)
    ensures |Direct(db, bs)| == |db| + |AllStmts(bs)| ==> forall i :: 0 <= i < |bs| && !bs[i].commits ==> bs[i].stmts == []
  {
    if bs != [] {
      DirectDropsRolledBack(db, bs[..|bs| - 1]);
      assert forall i :: 0 <= i < |bs| - 1 ==> bs[i] == bs[..|bs| - 1][i];
    }
  }

  /** Builders run inside a transaction and then committed leave what they would have left on
      the plain driver exactly when no block that rolled back had run a statement: the inner
      rollback is a no-op. */
  lemma TransactionIsDirectExactly(c: Setup, db: seq<Stmt>, bs: seq<Block>)
    requires ValidSetup(c) && forall s :: !c.commitFails(s)
    ensures After(c, Begun(db), AllActions(bs) + [Commit]).db == db + AllStmts(bs)
    ensures After(c, Begun(db), AllActions(bs) + [Commit]).db == Direct(db, bs)
       <==> forall i :: 0 <= i < |bs| && !bs[i].commits ==> bs[i].stmts == []
  {
    CommitAfterBlocks(c, db, bs);
    DirectDropsRolledBack(db, bs);
  }

  lemma CommitAfterBlocks(c: Setup, db: seq<Stmt>, bs: seq<Block>)
    requires ValidSetup(c) && forall s :: !c.commitFails(s)
    ensures After(c, Begun(db), AllActions(bs) + [Commit]).db == db + AllStmts(bs)
  {
    var s, done := Begun(db), AllStmts(bs);
    AfterConcat(c, s, AllActions(bs), [Commit]);
    BlocksAppend(c, s, bs);
    assert [] + done == done;
    var m := s.(pending := done, log := done);
    assert [Commit][..0] == [];
    assert Named(c, []) == [];
    assert After(c, m, [Commit]) == Step(c, m, Commit).0;
  }

  lemma RegisteredAndRun(c: Setup, db: seq<Stmt>, hs: seq<nat>, stmts: seq<Stmt>)
    requires ValidSetup(c)
    ensures After(c, Begun(db), Adds(hs) + Runs(stmts)) == Session(db, stmts, stmts, Active, hs, [])
  {
    var s := Begun(db);
    AfterConcat(c, s, Adds(hs), Runs(stmts));
    AddsRegister(c, s, hs);
    assert [] + hs == hs && [] + stmts == stmts;
    RunsAppend(c, s.(onCommit := hs), stmts);
  }

  lemma CommitWithHooks(c: Setup, s: Session, tags: seq<(Stmt, Stmt)>, none: Answer)
    requires ValidSetup(c) && Tagged(c, s.onCommit, tags, none) && s.phase.Active?
    ensures Step(c, s, Commit) == DriverCommit(c)((), Ran(s, Firsts(tags)))
  {
    HooksRunAroundClose(c, s.onCommit, tags, none, DriverCommit(c), s);
  }

  /** Commit hooks that were registered run, in the order of registration, and what they ran
      before next is committed with the transaction. */
  lemma CommitHooksRun(
    c: Setup, db: seq<Stmt>, hs: seq<nat>, tags: seq<(Stmt, Stmt)>, none: Answer, stmts: seq<Stmt>)
    requires ValidSetup(c) && Tagged(c, hs, tags, none) && forall s :: !c.commitFails(s)
    ensures var t := After(c, Begun(db), Adds(hs) + Runs(stmts) + [Commit]);
      t.phase.Committed? && t.db == db + stmts + Firsts(tags)
  {
    var acts := Adds(hs) + Runs(stmts);
    var s := Session(db, stmts, stmts, Active, hs, []);
    RegisteredAndRun(c, db, hs, stmts);
    assert (acts + [Commit])[..|acts|] == acts;
    assert After(c, Begun(db), acts + [Commit]) == Step(c, s, Commit).0;
    CommitWithHooks(c, s, tags, none);
    assert db + (stmts + Firsts(tags)) == db + stmts + Firsts(tags);
  }

  /** A commit hook that refuses keeps the transaction open, and nothing becomes visible. */
  lemma CommitHookCanRefuse(
    c: Setup, s: Session, hs: seq<nat>, tags: seq<(Stmt, Stmt)>, none: Answer, no: nat, a: Answer, rest: seq<nat>)
    requires ValidSetup(c) && Tagged(c, hs, tags, none) && s.phase.Active? && c.code(no) == Refuse(a)
    requires s.onCommit == hs + ([no] + rest)
    ensures Step(c, s, Commit).1 == Returned(a)
    ensures Step(c, s, Commit).0 == Ran(s, Firsts(tags) + Lasts(tags))
  {
    RefusalKeepsOpen(c, hs, tags, none, no, a, rest, DriverCommit(c), s);
  }
}
