/**
 Delivering outbox rows: any number of workers claim due rows, send them outside any
 transaction and record the outcome, while stale leases are recovered, failed rows are
 re-driven and old rows are pruned. Each statement is one atomic step; claiming and
 recovering lock their rows first, and so are one step each, while recording a temporary
 failure reads the attempts in one step and updates the row in another.

 One clock is assumed for all workers. A send ends within the SMTP timeout of the claim, and
 recording its outcome ends within the update timeout of the end of the send.
 */
module Delivery {
  import opened Wrappers

  datatype Config = Config(maxAttempts: nat, lease: int, smtp: int, update: int)

  /** What validation of the settings accepts. */
  ghost predicate Accepted(c: Config) {
    c.maxAttempts >= 1 && c.smtp < c.lease && 0 < c.update
  }

  /** How long a send can take: a context with a timeout that is not positive has expired
      before the send begins, and the send fails at once. */
  function SendTime(c: Config): int {
    if c.smtp > 0 then c.smtp else 0
  }

  datatype Status = Pending | Processing | Sent | Failed

  datatype Row = Row(status: Status, attempts: nat, nextAttempt: Option<int>, lockedAt: Option<int>)

  datatype Outcome = Delivered | Temporary | Permanent

  /** A worker between two claims: sending since the claim, or recording since the end of the
      send; `read` are the attempts it has read to decide whether a retry is left. */
  datatype Worker =
    | Idle
    | Sending(id: nat, since: int)
    | Recording(id: nat, claimed: int, since: int, o: Outcome, read: Option<nat>)

  /** `delivered` counts the sends per row that the worker saw succeed; `lost` those whose
      outcome was never recorded; `pruned` are rows removed after having been sent. */
  datatype Sys = Sys(
    now: int, rows: map<nat, Row>, workers: seq<Worker>, delivered: map<nat, nat>, lost: map<nat, nat>, pruned: set<nat>)

  // ---- The statements ----

  function Claimed(r: Row, now: int): Row {
    r.(status := Processing, attempts := r.attempts + 1, lockedAt := Some(now))
  }

  function MarkedSent(r: Row): Row {
    r.(status := Sent, lockedAt := None)
  }

  /** The update of MarkFailed, with the attempts its query had read. */
  function MarkedFailed(c: Config, r: Row, read: nat, retryAt: int): Row {
    if read >= c.maxAttempts then r.(status := Failed, nextAttempt := None, lockedAt := None)
    else r.(status := Pending, nextAttempt := Some(retryAt), lockedAt := None)
  }

  function MarkedTerminal(r: Row): Row {
    r.(status := Failed, nextAttempt := None, lockedAt := None)
  }

  function Recovered(c: Config, r: Row, now: int): Row {
    if r.attempts >= c.maxAttempts then r.(status := Failed, nextAttempt := None, lockedAt := None)
    else r.(status := Pending, nextAttempt := Some(now), lockedAt := None)
  }

  function Redriven(now: int): Row {
    Row(Pending, 0, Some(now), None)
  }

  // ---- Steps ----

  datatype Event =
    | Tick(d: int)
    | Enqueue(id: nat)
    | Claim(w: nat, id: nat)
    | Abandon(w: nat)                    // shutdown after the claim, or a crash
    | SendEnds(w: nat, o: Outcome)
    | ReadAttempts(w: nat)
    | Record(w: nat, retryAt: int)
    | RecordLost(w: nat)                 // the update failed, or a crash
    | Recover(id: nat)
    | Redrive(id: nat)
    | Prune(id: nat)

  function Count(m: map<nat, nat>, id: nat): nat {
    if id in m then m[id] else 0
  }

  ghost predicate InTime(c: Config, w: Worker, t: int) {
    && (w.Sending? ==> t <= w.since + SendTime(c))
    && (w.Recording? ==> t <= w.since + c.update)
  }

  ghost predicate Enabled(c: Config, s: Sys, e: Event) {
    match e
    case Tick(d) => d > 0 && forall i :: 0 <= i < |s.workers| ==> InTime(c, s.workers[i], s.now + d)
    case Enqueue(id) => id !in s.rows && id !in s.pruned && Count(s.delivered, id) == 0 && Count(s.lost, id) == 0
    case Claim(w, id) =>
      && w < |s.workers| && s.workers[w].Idle? && id in s.rows && s.rows[id].status.Pending?
      && (s.rows[id].nextAttempt.Some? ==> s.rows[id].nextAttempt.value <= s.now)
    case Abandon(w) => w < |s.workers| && s.workers[w].Sending?
    case SendEnds(w, o) => w < |s.workers| && s.workers[w].Sending? && (o.Delivered? ==> c.smtp > 0)
    case ReadAttempts(w) =>
      && w < |s.workers| && s.workers[w].Recording? && s.workers[w].o.Temporary?
      && s.workers[w].read.None? && s.workers[w].id in s.rows
    case Record(w, _) =>
      && w < |s.workers| && s.workers[w].Recording?
      && (s.workers[w].o.Temporary? && s.workers[w].id in s.rows ==> s.workers[w].read.Some?)
    case RecordLost(w) => w < |s.workers| && s.workers[w].Recording?
    case Recover(id) =>
      && id in s.rows && s.rows[id].status.Processing?
      && s.rows[id].lockedAt.Some? && s.rows[id].lockedAt.value < s.now - c.lease
    case Redrive(id) => id in s.rows && s.rows[id].status.Failed?
    case Prune(id) => id in s.rows && s.rows[id].status.Sent?
  }

  /** MarkSent, MarkFailed or MarkFailedTerminal: by id, whoever holds the row by then. */
  function Recorded(c: Config, rows: map<nat, Row>, id: nat, o: Outcome, read: Option<nat>, retryAt: int): map<nat, Row>
    requires o.Temporary? && id in rows ==> read.Some?
  {
    if id !in rows then rows
    else match o
      case Delivered => rows[id := MarkedSent(rows[id])]
      case Temporary => rows[id := MarkedFailed(c, rows[id], read.value, retryAt)]
      case Permanent => rows[id := MarkedTerminal(rows[id])]
  }

  ghost function Apply(c: Config, s: Sys, e: Event): Sys
    requires Enabled(c, s, e)
  {
    match e
    case Tick(d) => s.(now := s.now + d)
    case Enqueue(id) => s.(rows := s.rows[id := Row(Pending, 0, None, None)])
    case Claim(w, id) =>
      s.(rows := s.rows[id := Claimed(s.rows[id], s.now)], workers := s.workers[w := Sending(id, s.now)])
    case Abandon(w) => s.(workers := s.workers[w := Idle])
    case SendEnds(w, o) =>
      var id := s.workers[w].id;
      s.(workers := s.workers[w := Recording(id, s.workers[w].since, s.now, o, None)],
         delivered := if o.Delivered? then s.delivered[id := Count(s.delivered, id) + 1] else s.delivered)
    case ReadAttempts(w) =>
      s.(workers := s.workers[w := s.workers[w].(read := Some(s.rows[s.workers[w].id].attempts))])
    case Record(w, retryAt) =>
      s.(workers := s.workers[w := Idle],
         rows := Recorded(c, s.rows, s.workers[w].id, s.workers[w].o, s.workers[w].read, retryAt))
    case RecordLost(w) =>
      var id := s.workers[w].id;
      s.(workers := s.workers[w := Idle],
         lost := if s.workers[w].o.Delivered? then s.lost[id := Count(s.lost, id) + 1] else s.lost)
    case Recover(id) => s.(rows := s.rows[id := Recovered(c, s.rows[id], s.now)])
    case Redrive(id) => s.(rows := s.rows[id := Redriven(s.now)])
    case Prune(id) => s.(rows := s.rows - {id}, pruned := s.pruned + {id})
  }

  ghost predicate Init(s: Sys) {
    && s.rows == map[] && s.delivered == map[] && s.lost == map[] && s.pruned == {}
    && forall i :: 0 <= i < |s.workers| ==> s.workers[i].Idle?
  }

  ghost predicate Run(c: Config, states: seq<Sys>, events: seq<Event>) {
    && |states| == |events| + 1 && Init(states[0])
    && forall k {:trigger events[k]} :: 0 <= k < |events| ==> Enabled(c, states[k], events[k]) && states[k + 1] == Apply(c, states[k], events[k])
  }

  // ---- Rows ----

  /** A row has a lease time exactly while it is processing, and a failed one no retry time. */
  ghost predicate RowsShaped(s: Sys) {
    forall id :: id in s.rows ==> RowShaped(s.rows[id])
  }

  ghost predicate RowShaped(r: Row) {
    (r.status.Processing? <==> r.lockedAt.Some?) && (r.status.Failed? ==> r.nextAttempt.None?)
  }

  lemma StepKeepsRowsShaped(c: Config, s: Sys, e: Event)
    requires Enabled(c, s, e) && RowsShaped(s)
    ensures RowsShaped(Apply(c, s, e))
  {
  }

  /** In every run, also when leases run out under a worker. */
  lemma {:induction false} RowsStayShaped(c: Config, states: seq<Sys>, events: seq<Event>, k: nat)
    requires Run(c, states, events) && k < |states|
    ensures RowsShaped(states[k])
  {
    if k > 0 {
      RowsStayShaped(c, states, events, k - 1);
      StepKeepsRowsShaped(c, states[k - 1], events[k - 1]);
    }
  }

  // ---- Progress ----

  lemma RunOneMore(c: Config, states: seq<Sys>, events: seq<Event>, e: Event, next: Sys)
    returns (states': seq<Sys>, events': seq<Event>)
    requires Run(c, states, events) && Enabled(c, states[|events|], e) && next == Apply(c, states[|events|], e)
    ensures states' == states + [next] && events' == events + [e] && Run(c, states', events')
  {
    states', events' := states + [next], events + [e];
  }

  /** One run continues another. */
  ghost predicate Continues(c: Config, states: seq<Sys>, events: seq<Event>, states': seq<Sys>, events': seq<Event>) {
    Run(c, states', events') && states <= states' && events <= events'
  }

  ghost predicate IdleFrom(s: Sys, n: nat) {
    forall i :: n <= i < |s.workers| ==> s.workers[i].Idle?
  }

  /** Every worker can go down, and the rows stay as they are. */
  lemma {:induction false} WorkersGoDown(c: Config, states: seq<Sys>, events: seq<Event>, n: nat)
    returns (states': seq<Sys>, events': seq<Event>)
    requires Run(c, states, events) && n <= |states[|events|].workers| && IdleFrom(states[|events|], n)
    ensures Continues(c, states, events, states', events') && IdleFrom(states'[|events'|], 0)
    ensures states'[|events'|].rows == states[|events|].rows
    ensures |states'[|events'|].workers| == |states[|events|].workers|
    decreases n
  {
    states', events' := states, events;
    var s := states[|events|];
    if n > 0 {
      if !s.workers[n - 1].Idle? {
        var e := if s.workers[n - 1].Sending? then Abandon(n - 1) else RecordLost(n - 1);
        states', events' := RunOneMore(c, states, events, e, Apply(c, s, e));
      }
      states', events' := WorkersGoDown(c, states', events', n - 1);
    }
  }

  /** With idle workers the clock can reach any time. */
  lemma TimePasses(c: Config, states: seq<Sys>, events: seq<Event>, time: int)
    returns (states': seq<Sys>, events': seq<Event>)
    requires Run(c, states, events) && IdleFrom(states[|events|], 0)
    ensures Continues(c, states, events, states', events')
    ensures exists now :: now >= time && states'[|events'|] == states[|events|].(now := now)
  {
    var s := states[|events|];
    states', events' := states, events;
    assert s == s.(now := s.now);
    if s.now < time {
      states', events' := RunOneMore(c, states, events, Tick(time - s.now), s.(now := time));
    }
  }

  /** A row nobody works on is recovered when its lease is over. */
  lemma IsRecovered(c: Config, states: seq<Sys>, events: seq<Event>, id: nat)
    returns (states': seq<Sys>, events': seq<Event>)
    requires Run(c, states, events) && IdleFrom(states[|events|], 0)
    requires id in states[|events|].rows && states[|events|].rows[id].status.Processing?
    ensures Continues(c, states, events, states', events') && IdleFrom(states'[|events'|], 0)
    ensures |states'[|events'|].workers| == |states[|events|].workers|
    ensures id in states'[|events'|].rows
    ensures states'[|events'|].rows[id].status.Pending? || states'[|events'|].rows[id].status.Failed?
  {
    RowsStayShaped(c, states, events, |events|);
    var r := states[|events|].rows[id];
    assert RowShaped(r);
    states', events' := TimePasses(c, states, events, r.lockedAt.value + c.lease + 1);
    var s := states'[|events'|];
    states', events' := RunOneMore(c, states', events', Recover(id), Apply(c, s, Recover(id)));
  }

  /** A pending row is claimed when it is due, the send ends, and the row is marked. */
  lemma IsMarked(c: Config, states: seq<Sys>, events: seq<Event>, id: nat)
    returns (states': seq<Sys>, events': seq<Event>)
    requires Run(c, states, events) && IdleFrom(states[|events|], 0) && |states[|events|].workers| > 0
    requires id in states[|events|].rows && states[|events|].rows[id].status.Pending?
    ensures Continues(c, states, events, states', events') && id in states'[|events'|].rows
    ensures if c.smtp > 0 then states'[|events'|].rows[id].status.Sent? else states'[|events'|].rows[id].status.Failed?
  {
    var next := states[|events|].rows[id].nextAttempt;
    states', events' := TimePasses(c, states, events, if next.Some? then next.value else 0);
    var s := states'[|events'|];
    var o := if c.smtp > 0 then Delivered else Permanent;
    var s1 := Apply(c, s, Claim(0, id));
    states', events' := RunOneMore(c, states', events', Claim(0, id), s1);
    assert s1.workers[0] == Sending(id, s.now);
    var s2 := Apply(c, s1, SendEnds(0, o));
    states', events' := RunOneMore(c, states', events', SendEnds(0, o), s2);
    assert s2.workers[0].id == id && s2.workers[0].o == o;
    states', events' := RunOneMore(c, states', events', Record(0, 0), Apply(c, s2, Record(0, 0)));
  }

  /** No row is stuck: every run, even one that left the row with a worker that is gone, has a
      continuation in which the row is sent or has failed. */
  lemma NoRowIsStuck(c: Config, states: seq<Sys>, events: seq<Event>, id: nat)
    returns (states': seq<Sys>, events': seq<Event>)
    requires Run(c, states, events) && |states[|events|].workers| > 0
    requires id in states[|events|].rows
    ensures Continues(c, states, events, states', events') && id in states'[|events'|].rows
    ensures states'[|events'|].rows[id].status.Sent? || states'[|events'|].rows[id].status.Failed?
  {
    states', events' := WorkersGoDown(c, states, events, |states[|events|].workers|);
    if states'[|events'|].rows[id].status.Processing? {
      states', events' := IsRecovered(c, states', events', id);
    }
    if states'[|events'|].rows[id].status.Pending? {
      states', events' := IsMarked(c, states', events', id);
    }
  }

  // ---- Leases ----

  function ClaimTime(w: Worker): int
    requires !w.Idle?
  {
    if w.Sending? then w.since else w.claimed
  }

  /** The row is leased to this worker and the lease has not run out. */
  ghost predicate LeaseValid(c: Config, s: Sys, w: Worker) {
    !w.Idle? ==>
      && w.id in s.rows && s.rows[w.id].status.Processing?
      && s.rows[w.id].lockedAt == Some(ClaimTime(w))
      && ClaimTime(w) <= s.now && InTime(c, w, s.now)
      && (w.Recording? ==> w.since <= w.claimed + SendTime(c))
      && (w.Recording? && w.read.Some? ==> w.read.value == s.rows[w.id].attempts)
  }

  ghost predicate Exclusive(c: Config, s: Sys) {
    && (forall i :: 0 <= i < |s.workers| ==> LeaseValid(c, s, s.workers[i]))
    && (forall i, j :: 0 <= i < j < |s.workers| && !s.workers[i].Idle? && !s.workers[j].Idle? ==>
          s.workers[i].id != s.workers[j].id)
  }

  /** The settings leave room for the send and for recording it. */
  ghost predicate LeaseLongEnough(c: Config) {
    SendTime(c) + c.update <= c.lease
  }

  lemma HeldIsNotStale(c: Config, s: Sys, i: nat)
    requires LeaseLongEnough(c) && 0 < c.update && i < |s.workers| && LeaseValid(c, s, s.workers[i]) && !s.workers[i].Idle?
    ensures !Enabled(c, s, Recover(s.workers[i].id))
  {
  }

  lemma StepKeepsExclusive(c: Config, s: Sys, e: Event)
    requires LeaseLongEnough(c) && 0 < c.update && Enabled(c, s, e) && Exclusive(c, s)
    ensures Exclusive(c, Apply(c, s, e))
  {
    var t := Apply(c, s, e);
    forall i | 0 <= i < |t.workers|
      ensures LeaseValid(c, t, t.workers[i])
    {
      assert LeaseValid(c, s, s.workers[i]);
      if e.Recover? && !s.workers[i].Idle? {
        HeldIsNotStale(c, s, i);
      }
    }
  }

  // ---- Every successful send is accounted for ----

  ghost predicate AboutToRecord(s: Sys, id: nat) {
    exists i :: 0 <= i < |s.workers| && s.workers[i].Recording? && s.workers[i].id == id && s.workers[i].o.Delivered?
  }

  /** Successful sends of a row: one if it is marked sent or was pruned, one if a worker is
      about to mark it, and those whose mark was lost. */
  ghost function Accounted(s: Sys, id: nat): nat {
    Count(s.lost, id)
    + (if id in s.pruned || (id in s.rows && s.rows[id].status.Sent?) then 1 else 0)
    + (if AboutToRecord(s, id) then 1 else 0)
  }

  ghost predicate Accounts(s: Sys) {
    && (forall id :: Count(s.delivered, id) == Accounted(s, id))
    && (forall id :: id in s.pruned ==> id !in s.rows)
  }

  lemma RecordingAfter(c: Config, s: Sys, e: Event, id: nat)
    requires Enabled(c, s, e) && Exclusive(c, s)
    ensures AboutToRecord(Apply(c, s, e), id) <==>
              match e
              case SendEnds(w, o) => (o.Delivered? && s.workers[w].id == id) || AboutToRecord(s, id)
              case Record(w, _) => AboutToRecord(s, id) && s.workers[w].id != id
              case RecordLost(w) => AboutToRecord(s, id) && s.workers[w].id != id
              case _ => AboutToRecord(s, id)
  {
    var t := Apply(c, s, e);
    if AboutToRecord(s, id) {
      var i :| 0 <= i < |s.workers| && s.workers[i].Recording? && s.workers[i].id == id && s.workers[i].o.Delivered?;
      assert t.workers[i] == s.workers[i] || e.Record? || e.RecordLost? || e.ReadAttempts?;
    }
    if e.SendEnds? && e.o.Delivered? && s.workers[e.w].id == id {
      assert t.workers[e.w].Recording?;
    }
    if AboutToRecord(t, id) {
      var i :| 0 <= i < |t.workers| && t.workers[i].Recording? && t.workers[i].id == id && t.workers[i].o.Delivered?;
      assert t.workers[i] == s.workers[i] || (e.SendEnds? && i == e.w);
    }
  }

  lemma StepKeepsAccounts(c: Config, s: Sys, e: Event)
    requires LeaseLongEnough(c) && 0 < c.update && Enabled(c, s, e) && Exclusive(c, s) && Accounts(s)
    ensures Accounts(Apply(c, s, e))
  {
    var t := Apply(c, s, e);
    forall id: nat
      ensures Count(t.delivered, id) == Accounted(t, id)
    {
      RecordingAfter(c, s, e, id);
      assert Count(s.delivered, id) == Accounted(s, id);
    }
  }

  // ---- Main results ----

  /** With a lease that covers send and record: in every run no row is held twice and every
      successful send is accounted for. */
  lemma {:induction false} SendsAreAccountedFor(c: Config, states: seq<Sys>, events: seq<Event>, k: nat)
    requires LeaseLongEnough(c) && 0 < c.update && Run(c, states, events) && k < |states|
    ensures Exclusive(c, states[k]) && Accounts(states[k])
  {
    if k == 0 {
      assert forall id :: !AboutToRecord(states[0], id);
    } else {
      SendsAreAccountedFor(c, states, events, k - 1);
      StepKeepsExclusive(c, states[k - 1], events[k - 1]);
      StepKeepsAccounts(c, states[k - 1], events[k - 1]);
    }
  }

  /** A row none of whose outcomes was lost is delivered at most once. */
  lemma DeliveredAtMostOnce(c: Config, states: seq<Sys>, events: seq<Event>, k: nat, id: nat)
    requires LeaseLongEnough(c) && 0 < c.update && Run(c, states, events) && k < |states|
    ensures Count(states[k].delivered, id) <= Count(states[k].lost, id) + 1
  {
    SendsAreAccountedFor(c, states, events, k);
    var s := states[k];
    assert Count(s.delivered, id) == Accounted(s, id);
    if AboutToRecord(s, id) {
      var i :| 0 <= i < |s.workers| && s.workers[i].Recording? && s.workers[i].id == id && s.workers[i].o.Delivered?;
      assert LeaseValid(c, s, s.workers[i]);
    }
  }

  ghost predicate SentOrPruned(s: Sys, id: nat) {
    id in s.pruned || (id in s.rows && s.rows[id].status.Sent?)
  }

  lemma StepKeepsSent(c: Config, s: Sys, e: Event, id: nat)
    requires Enabled(c, s, e) && Exclusive(c, s) && SentOrPruned(s, id)
    ensures SentOrPruned(Apply(c, s, e), id)
  {
    if e.Record? {
      assert LeaseValid(c, s, s.workers[e.w]);
    }
  }

  /** Sent is final. */
  lemma {:induction false} SentStays(c: Config, states: seq<Sys>, events: seq<Event>, k: nat, l: nat, id: nat)
    requires LeaseLongEnough(c) && 0 < c.update && Run(c, states, events) && k <= l < |states|
    requires SentOrPruned(states[k], id)
    ensures SentOrPruned(states[l], id)
  {
    if k < l {
      SentStays(c, states, events, k, l - 1, id);
      SendsAreAccountedFor(c, states, events, l - 1);
      var s, e := states[l - 1], events[l - 1];
      assert Enabled(c, s, e) && states[l] == Apply(c, s, e);
      StepKeepsSent(c, s, e, id);
    }
  }

  // ---- Attempts ----

  /** No row is attempted more often than allowed, and a pending row has an attempt left. */
  ghost predicate RowsSound(c: Config, s: Sys) {
    forall id :: id in s.rows ==> RowSound(c, s.rows[id])
  }

  ghost predicate RowSound(c: Config, r: Row) {
    r.attempts <= c.maxAttempts && (r.status.Pending? ==> r.attempts < c.maxAttempts)
  }

  lemma StepKeepsRowsSound(c: Config, s: Sys, e: Event)
    requires Enabled(c, s, e) && Exclusive(c, s) && RowsSound(c, s) && c.maxAttempts > 0
    ensures RowsSound(c, Apply(c, s, e))
  {
    if e.Record? {
      assert LeaseValid(c, s, s.workers[e.w]);
    }
  }

  /** With a lease that covers send and record, in every run: what a worker read is still true
      when it updates the row. */
  lemma {:induction false} RowsStaySound(c: Config, states: seq<Sys>, events: seq<Event>, k: nat)
    requires LeaseLongEnough(c) && 0 < c.update && c.maxAttempts > 0 && Run(c, states, events) && k < |states|
    ensures RowsSound(c, states[k])
  {
    if k > 0 {
      RowsStaySound(c, states, events, k - 1);
      SendsAreAccountedFor(c, states, events, k - 1);
      StepKeepsRowsSound(c, states[k - 1], events[k - 1]);
    }
  }

  // ---- A lease that is too short ----

  /** When the lease of a row claimed at time zero is over and its send has ended. */
  function Expiry(c: Config): int {
    if SendTime(c) < c.lease + 1 then c.lease + 1 else SendTime(c)
  }

  /** A row that is being recorded while its lease has just run out. */
  ghost function Overdue(c: Config, o: Outcome): Sys {
    Sys(Expiry(c), map[0 := Row(Processing, 1, None, Some(0))], [Recording(0, 0, SendTime(c), o, None), Idle],
        if o.Delivered? then map[0 := 1] else map[], map[], {})
  }

  lemma TickTo(c: Config, states: seq<Sys>, events: seq<Event>, time: int, next: Sys)
    returns (states': seq<Sys>, events': seq<Event>)
    requires Run(c, states, events) && states[|events|].now <= time && next == states[|events|].(now := time)
    requires forall i :: 0 <= i < |next.workers| ==> InTime(c, next.workers[i], time)
    ensures Run(c, states', events') && states'[|events'|] == next
  {
    states', events' := states, events;
    var s := states[|events|];
    if s.now < time {
      states', events' := RunOneMore(c, states, events, Tick(time - s.now), next);
    } else {
      assert next == s;
    }
  }

  lemma SendEndsLate(c: Config, s: Sys, o: Outcome)
    requires o.Delivered? ==> c.smtp > 0
    requires s == Sys(SendTime(c), map[0 := Row(Processing, 1, None, Some(0))], [Sending(0, 0), Idle], map[], map[], {})
    ensures Enabled(c, s, SendEnds(0, o)) && Apply(c, s, SendEnds(0, o)) == Overdue(c, o).(now := SendTime(c))
  {
  }

  lemma OverdueIsReached(c: Config, o: Outcome) returns (states: seq<Sys>, events: seq<Event>)
    requires Accepted(c) && !LeaseLongEnough(c) && (o.Delivered? ==> c.smtp > 0)
    ensures Run(c, states, events) && states[|events|] == Overdue(c, o)
  {
    var s0 := Sys(0, map[], [Idle, Idle], map[], map[], {});
    states, events := [s0], [];
    var s1 := s0.(rows := map[0 := Row(Pending, 0, None, None)]);
    states, events := RunOneMore(c, states, events, Enqueue(0), s1);
    var s2 := s1.(rows := map[0 := Row(Processing, 1, None, Some(0))], workers := [Sending(0, 0), Idle]);
    assert s1.rows[0 := Claimed(s1.rows[0], 0)] == s2.rows;
    states, events := RunOneMore(c, states, events, Claim(0, 0), s2);
    var s3 := s2.(now := SendTime(c));
    states, events := TickTo(c, states, events, SendTime(c), s3);
    SendEndsLate(c, s3, o);
    var s4 := Overdue(c, o).(now := SendTime(c));
    states, events := RunOneMore(c, states, events, SendEnds(0, o), s4);
    states, events := TickTo(c, states, events, Expiry(c), Overdue(c, o));
  }

  /** The same with the row free again: recovered, and re-driven if it had no attempt left. */
  ghost function Freed(c: Config, o: Outcome): Sys {
    var attempts := if c.maxAttempts == 1 then 0 else 1;
    Overdue(c, o).(rows := map[0 := Row(Pending, attempts, Some(Expiry(c)), None)])
  }

  lemma FreedIsReached(c: Config, o: Outcome) returns (states: seq<Sys>, events: seq<Event>)
    requires Accepted(c) && !LeaseLongEnough(c) && (o.Delivered? ==> c.smtp > 0)
    ensures Run(c, states, events) && states[|events|] == Freed(c, o)
  {
    states, events := OverdueIsReached(c, o);
    var s := Overdue(c, o);
    var row := Recovered(c, s.rows[0], s.now);
    var s1 := s.(rows := map[0 := row]);
    assert s.rows[0 := row] == s1.rows;
    states, events := RunOneMore(c, states, events, Recover(0), s1);
    if c.maxAttempts == 1 {
      assert s1.rows[0 := Redriven(s.now)] == Freed(c, o).rows;
      states, events := RunOneMore(c, states, events, Redrive(0), Freed(c, o));
    }
  }

  /** With a shorter lease, even one that validation accepts, a row can be delivered twice
      with nothing lost: it is recovered while its sender is still recording. */
  lemma ShortLeaseDeliversTwice(c: Config) returns (states: seq<Sys>, events: seq<Event>)
    requires Accepted(c) && !LeaseLongEnough(c) && c.smtp > 0
    ensures Run(c, states, events)
    ensures var s := states[|states| - 1];
      Count(s.delivered, 0) == 2 && Count(s.lost, 0) == 0 && 0 in s.rows && s.rows[0].status.Sent?
    ensures !Accounts(states[|states| - 1])
  {
    states, events := FreedIsReached(c, Delivered);
    var t := Expiry(c);
    var first := Recording(0, 0, SendTime(c), Delivered, None);
    var second := Recording(0, t, t, Delivered, None);
    var s6 := Freed(c, Delivered);
    var n := s6.rows[0].attempts + 1;
    var s7 := s6.(rows := map[0 := Row(Processing, n, Some(t), Some(t))], workers := [first, Sending(0, t)]);
    assert s6.rows[0 := Claimed(s6.rows[0], t)] == s7.rows;
    states, events := RunOneMore(c, states, events, Claim(1, 0), s7);
    var s8 := s7.(workers := [first, second], delivered := map[0 := 2]);
    assert s7.delivered[0 := 2] == s8.delivered;
    states, events := RunOneMore(c, states, events, SendEnds(1, Delivered), s8);
    var s9 := s8.(rows := map[0 := Row(Sent, n, Some(t), None)], workers := [Idle, second]);
    assert s8.rows[0 := MarkedSent(s8.rows[0])] == s9.rows;
    states, events := RunOneMore(c, states, events, Record(0, 0), s9);
    var s10 := s9.(workers := [Idle, Idle]);
    assert s9.rows[0 := MarkedSent(s9.rows[0])] == s10.rows;
    states, events := RunOneMore(c, states, events, Record(1, 0), s10);
    assert !AboutToRecord(s10, 0);
    assert Accounted(s10, 0) == 1;
  }

  // ---- Without time to send nothing is delivered ----

  ghost predicate NothingSent(s: Sys) {
    && s.delivered == map[] && s.lost == map[] && s.pruned == {}
    && (forall id :: id in s.rows ==> !s.rows[id].status.Sent?)
    && (forall i :: 0 <= i < |s.workers| && s.workers[i].Recording? ==> !s.workers[i].o.Delivered?)
  }

  lemma StepSendsNothing(c: Config, s: Sys, e: Event)
    requires Enabled(c, s, e) && NothingSent(s) && c.smtp <= 0
    ensures NothingSent(Apply(c, s, e))
  {
  }

  lemma {:induction false} NothingIsSent(c: Config, states: seq<Sys>, events: seq<Event>, k: nat)
    requires Run(c, states, events) && k < |states| && c.smtp <= 0
    ensures NothingSent(states[k]) && Accounts(states[k])
  {
    if k > 0 {
      NothingIsSent(c, states, events, k - 1);
      StepSendsNothing(c, states[k - 1], events[k - 1]);
    }
    assert forall id :: !AboutToRecord(states[k], id);
  }

  /** Of the settings that validation accepts, exactly those with a lease of at least the
      SMTP timeout plus the update timeout, or without any time to send, account for every
      send in every run. */
  lemma LeaseExactly(c: Config)
    requires Accepted(c)
    ensures LeaseLongEnough(c) || c.smtp <= 0 <==>
              forall states, events, k :: Run(c, states, events) && 0 <= k < |states| ==> Accounts(states[k])
  {
    if LeaseLongEnough(c) || c.smtp <= 0 {
      forall states, events, k | Run(c, states, events) && 0 <= k < |states|
        ensures Accounts(states[k])
      {
        if LeaseLongEnough(c) {
          SendsAreAccountedFor(c, states, events, k);
        } else {
          NothingIsSent(c, states, events, k);
        }
      }
    } else {
      var states, events := ShortLeaseDeliversTwice(c);
      assert Run(c, states, events) && !Accounts(states[|states| - 1]);
    }
  }

  // ---- With a short lease attempts are not bounded ----

  /** The first worker has read the attempts of the freed row and is about to update it, while
      the row is pending with n attempts. */
  ghost function Stale(c: Config, n: nat): Sys {
    var read := Freed(c, Temporary).rows[0].attempts;
    Freed(c, Temporary).(
      rows := map[0 := Row(Pending, n, Some(Expiry(c)), None)],
      workers := [Recording(0, 0, SendTime(c), Temporary, Some(read)), Idle])
  }

  lemma StaleIsReached(c: Config) returns (states: seq<Sys>, events: seq<Event>)
    requires Accepted(c) && !LeaseLongEnough(c)
    ensures Run(c, states, events) && states[|events|] == Stale(c, Freed(c, Temporary).rows[0].attempts)
  {
    states, events := FreedIsReached(c, Temporary);
    var next := Stale(c, Freed(c, Temporary).rows[0].attempts);
    states, events := RunOneMore(c, states, events, ReadAttempts(0), next);
  }

  /** The second worker claims the row, its send fails, and it records that. */
  lemma OneMoreAttempt(c: Config, states: seq<Sys>, events: seq<Event>, n: nat)
    returns (states': seq<Sys>, events': seq<Event>)
    requires Run(c, states, events) && states[|events|] == Stale(c, n) && n + 1 < c.maxAttempts
    ensures Run(c, states', events') && states'[|events'|] == Stale(c, n + 1)
  {
    var s, t := Stale(c, n), Expiry(c);
    var first := s.workers[0];
    var s1 := s.(rows := map[0 := Row(Processing, n + 1, Some(t), Some(t))], workers := [first, Sending(0, t)]);
    assert s.rows[0 := Claimed(s.rows[0], t)] == s1.rows;
    states', events' := RunOneMore(c, states, events, Claim(1, 0), s1);
    var s2 := s1.(workers := [first, Recording(0, t, t, Temporary, None)]);
    states', events' := RunOneMore(c, states', events', SendEnds(1, Temporary), s2);
    var s3 := s1.(workers := [first, Recording(0, t, t, Temporary, Some(n + 1))]);
    states', events' := RunOneMore(c, states', events', ReadAttempts(1), s3);
    assert s3.rows[0 := MarkedFailed(c, s3.rows[0], n + 1, t)] == Stale(c, n + 1).rows;
    states', events' := RunOneMore(c, states', events', Record(1, t), Stale(c, n + 1));
  }

  lemma {:induction false} AttemptsClimb(c: Config, states: seq<Sys>, events: seq<Event>, n: nat)
    returns (states': seq<Sys>, events': seq<Event>)
    requires Run(c, states, events) && states[|events|] == Stale(c, n) && n < c.maxAttempts
    ensures Run(c, states', events') && states'[|events'|] == Stale(c, c.maxAttempts - 1)
    decreases c.maxAttempts - n
  {
    states', events' := states, events;
    if n + 1 < c.maxAttempts {
      states', events' := OneMoreAttempt(c, states, events, n);
      states', events' := AttemptsClimb(c, states', events', n + 1);
    }
  }

  /** With a shorter lease a row can be attempted more often than allowed: a worker whose lease
      is over decides on attempts it read before the last one, and puts the row back. */
  lemma ShortLeaseExceedsAttempts(c: Config) returns (states: seq<Sys>, events: seq<Event>)
    requires Accepted(c) && !LeaseLongEnough(c)
    ensures Run(c, states, events)
    ensures var s := states[|states| - 1]; 0 in s.rows && s.rows[0].attempts == c.maxAttempts + 1
    ensures !RowsSound(c, states[|states| - 1])
  {
    states, events := StaleIsReached(c);
    states, events := AttemptsClimb(c, states, events, Freed(c, Temporary).rows[0].attempts);
    var s, t, max := Stale(c, c.maxAttempts - 1), Expiry(c), c.maxAttempts;
    var first := s.workers[0];
    var s1 := s.(rows := map[0 := Row(Processing, max, Some(t), Some(t))], workers := [first, Sending(0, t)]);
    assert s.rows[0 := Claimed(s.rows[0], t)] == s1.rows;
    states, events := RunOneMore(c, states, events, Claim(1, 0), s1);
    var s2 := s1.(rows := map[0 := Row(Pending, max, Some(t), None)], workers := [Idle, Sending(0, t)]);
    assert s1.rows[0 := MarkedFailed(c, s1.rows[0], first.read.value, t)] == s2.rows;
    states, events := RunOneMore(c, states, events, Record(0, t), s2);
    var s3 := s2.(rows := map[0 := Row(Processing, max + 1, Some(t), Some(t))], workers := [Sending(0, t), Sending(0, t)]);
    assert s2.rows[0 := Claimed(s2.rows[0], t)] == s3.rows;
    states, events := RunOneMore(c, states, events, Claim(0, 0), s3);
    assert !RowSound(c, s3.rows[0]);
  }

  /** Of the settings that validation accepts, exactly those with a lease that covers send and
      record bound the attempts of every row in every run. */
  lemma AttemptsExactly(c: Config)
    requires Accepted(c)
    ensures LeaseLongEnough(c) <==>
              forall states, events, k :: Run(c, states, events) && 0 <= k < |states| ==> RowsSound(c, states[k])
  {
    if LeaseLongEnough(c) {
      forall states, events, k | Run(c, states, events) && 0 <= k < |states|
        ensures RowsSound(c, states[k])
      {
        RowsStaySound(c, states, events, k);
      }
    } else {
      var states, events := ShortLeaseExceedsAttempts(c);
      assert Run(c, states, events) && !RowsSound(c, states[|states| - 1]);
    }
  }
}
