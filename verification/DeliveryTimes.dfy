/**
 When and how often outbox rows are attempted, over every run of the delivery.
 */
module DeliveryTimes {
  import opened Wrappers
  import opened Delivery

  // ---- Retry times ----

  /** The time before which a row that the event puts back may not be attempted: what the
      worker computed when it recorded a failure, or the time of the recovery or the redrive. */
  ghost function PutsBack(c: Config, s: Sys, e: Event, id: nat): Option<int>
    requires Enabled(c, s, e)
  {
    var rows := Apply(c, s, e).rows;
    if id !in rows || !rows[id].status.Pending? then None
    else match e
      case Record(w, retryAt) => if s.workers[w].id == id && s.workers[w].o.Temporary? then Some(retryAt) else None
      case Recover(x) => if x == id then Some(s.now) else None
      case Redrive(x) => if x == id then Some(s.now) else None
      case _ => None
  }

  /** Waiting since it was put back: a pending row has this retry time, and it is not
      processing before that time. */
  ghost predicate Waits(s: Sys, id: nat, time: int) {
    && (id in s.rows || id in s.pruned)
    && (id in s.rows && s.rows[id].status.Pending? ==> s.rows[id].nextAttempt == Some(time))
    && (id in s.rows && s.rows[id].status.Processing? ==> time <= s.now)
  }

  lemma PutBackWaits(c: Config, s: Sys, e: Event, id: nat)
    requires Enabled(c, s, e) && PutsBack(c, s, e, id).Some?
    ensures Waits(Apply(c, s, e), id, PutsBack(c, s, e, id).value)
  {
  }

  lemma StepKeepsWaiting(c: Config, s: Sys, e: Event, id: nat, time: int)
    requires Enabled(c, s, e) && Waits(s, id, time) && PutsBack(c, s, e, id).None?
    ensures Waits(Apply(c, s, e), id, time)
  {
  }

  lemma ClaimFindsItDue(c: Config, s: Sys, w: nat, id: nat, time: int)
    requires Enabled(c, s, Claim(w, id)) && Waits(s, id, time)
    ensures time <= s.now
  {
  }

  /** The event puts the row back with this retry time. */
  ghost predicate PutBackAt(c: Config, s: Sys, e: Event, id: nat, time: int) {
    Enabled(c, s, e) && PutsBack(c, s, e, id) == Some(time)
  }

  ghost predicate NotPutBack(c: Config, s: Sys, e: Event, id: nat) {
    Enabled(c, s, e) && PutsBack(c, s, e, id).None?
  }

  /** No event between k and l puts the row back. */
  ghost predicate NotPutBackSince(c: Config, states: seq<Sys>, events: seq<Event>, k: nat, l: nat, id: nat)
    requires k < l < |states| && |states| == |events| + 1
  {
    forall x {:trigger NotPutBack(c, states[x], events[x], id)} :: k < x < l ==> NotPutBack(c, states[x], events[x], id)
  }

  /** One step of a run, either the one that puts the row back or one that does not. */
  lemma WaitStep(c: Config, s: Sys, e: Event, t: Sys, id: nat, time: int)
    requires Enabled(c, s, e) && t == Apply(c, s, e)
    requires PutBackAt(c, s, e, id, time) || (NotPutBack(c, s, e, id) && Waits(s, id, time))
    ensures Waits(t, id, time)
  {
    if PutBackAt(c, s, e, id, time) {
      PutBackWaits(c, s, e, id);
    } else {
      StepKeepsWaiting(c, s, e, id, time);
    }
  }

  lemma {:induction false} StaysWaiting(c: Config, states: seq<Sys>, events: seq<Event>, k: nat, l: nat, id: nat, time: int)
    requires Run(c, states, events) && k < l < |states| && PutBackAt(c, states[k], events[k], id, time)
    requires NotPutBackSince(c, states, events, k, l, id)
    ensures Waits(states[l], id, time)
  {
    if l > k + 1 {
      StaysWaiting(c, states, events, k, l - 1, id, time);
      assert NotPutBack(c, states[l - 1], events[l - 1], id);
    }
    WaitStep(c, states[l - 1], events[l - 1], states[l], id, time);
  }

  /** In every run: from the event that last put a row back on, it is not processing before
      the time that event set, and a claim of it finds the clock there. */
  lemma RetryTimeIsKept(c: Config, states: seq<Sys>, events: seq<Event>, k: nat, l: nat, id: nat, time: int)
    requires Run(c, states, events) && k < l < |states| && PutBackAt(c, states[k], events[k], id, time)
    requires NotPutBackSince(c, states, events, k, l, id)
    ensures id in states[l].rows && states[l].rows[id].status.Processing? ==> time <= states[l].now
    ensures l < |events| && events[l].Claim? && events[l].id == id ==> time <= states[l].now
  {
    StaysWaiting(c, states, events, k, l, id, time);
    if l < |events| && events[l].Claim? && events[l].id == id {
      var e := events[l];
      assert Enabled(c, states[l], e) && e == Claim(e.w, id);
      ClaimFindsItDue(c, states[l], e.w, id, time);
    }
  }

  // ---- Attempts are claims ----

  /** How often the row was claimed since it was enqueued or re-driven. */
  ghost function ClaimsSince(events: seq<Event>, id: nat): nat {
    if events == [] then 0
    else
      var n, e := ClaimsSince(events[..|events| - 1], id), events[|events| - 1];
      if e == Enqueue(id) || e == Redrive(id) then 0
      else if e.Claim? && e.id == id then n + 1
      else n
  }

  lemma RunPrefix(c: Config, states: seq<Sys>, events: seq<Event>)
    requires Run(c, states, events) && events != []
    ensures Run(c, states[..|events|], events[..|events| - 1])
  {
  }

  /** In every run the attempts of a row are the claims of it since then. */
  lemma {:induction false} AttemptsAreClaims(c: Config, states: seq<Sys>, events: seq<Event>, id: nat)
    requires Run(c, states, events) && id in states[|events|].rows
    ensures states[|events|].rows[id].attempts == ClaimsSince(events, id)
  {
    if events != [] {
      var n := |events| - 1;
      var s, e := states[n], events[n];
      assert Enabled(c, s, e) && states[n + 1] == Apply(c, s, e);
      RunPrefix(c, states, events);
      if id in s.rows {
        AttemptsAreClaims(c, states[..n + 1], events[..n], id);
      }
    }
  }
}
