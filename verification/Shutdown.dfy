/**
 Shutting the process down: the signal handler in main, the scheduler's task goroutines and
 the goroutine inside Stop, and the notification worker, as interleaved steps over a clock.
 Times are nanoseconds.
 */
module Shutdown {

  const SECOND: int := 1_000_000_000
  const SHUTDOWN_TIMEOUT: int := 15 * SECOND
  const TASK_STOP_TIMEOUT: int := 30 * SECOND

  /** A scheduled task's goroutine: waiting for its ticker, in a round, or returned. */
  datatype Task = Idle | Running | Exited

  /** The worker: absent, in Run, back from Run, or its done channel closed. */
  datatype Worker = NoWorker | Working | Stopped | Signalled

  datatype Pc =
    | Serving                   // main waits for the signal
    | Stopping(deadline: int)   // in Stop's select
    | Waiting(deadline: int)    // in waitWorker's select
    | Draining                  // in s.Shutdown
    | Deciding                  // about to close the pool or leave it open
    | Finished

  /** When shutdown was entered, when the wait for the worker began and ended, and when
      s.Shutdown was called. */
  datatype Times = Times(started: int, waitFrom: int, waitTo: int, drainFrom: int)

  /** The goroutine that runs main. */
  datatype Main = Main(pc: Pc, schedErr: bool, workerErr: bool, poolClosed: bool, at: Times)

  /** When a task returned last, and when the worker's channel was closed. */
  datatype Ended = Ended(tasksAt: int, workerAt: int)

  datatype Sys = Sys(
    now: int, main: Main, signalled: bool, schedCancelled: bool, tasks: seq<Task>, allDone: bool, worker: Worker,
    ended: Ended)

  datatype Event =
    | Tick(d: int)
    | Signal
    | RoundStarts(task: nat)
    | RoundEnds(task: nat)
    | TaskExits(task: nat)
    | WorkerReturns
    | WorkerCloses
    | EnterShutdown
    | WaiterCloses
    | StopReturns
    | StopTimesOut
    | WorkerSeen
    | WorkerTimesOut
    | DrainReturns
    | Decide

  ghost predicate AllExited(s: Sys) {
    forall i :: 0 <= i < |s.tasks| ==> s.tasks[i].Exited?
  }

  /** How main keeps up: not at all, or without sleeping through a deadline it waits for, or
      without letting time pass when what it waits for has happened. */
  datatype Pace = Any | Prompt | Eager

  /** What main is waiting for has happened. */
  ghost predicate Due(s: Sys) {
    (s.main.pc.Stopping? && AllExited(s)) || (s.main.pc.Waiting? && s.worker.Signalled?)
  }

  ghost predicate MayTick(s: Sys, d: int, pace: Pace) {
    && d > 0
    && (!pace.Any? && (s.main.pc.Stopping? || s.main.pc.Waiting?) ==> s.now + d <= s.main.pc.deadline)
    && (pace.Eager? ==> !Due(s))
  }

  ghost predicate Enabled(s: Sys, e: Event, pace: Pace) {
    match e
    case Tick(d) => MayTick(s, d, pace)
    case Signal => true
    case RoundStarts(i) => i < |s.tasks| && s.tasks[i].Idle?
    case RoundEnds(i) => i < |s.tasks| && s.tasks[i].Running?
    case TaskExits(i) => i < |s.tasks| && s.tasks[i].Idle? && (s.signalled || s.schedCancelled)
    case WorkerReturns => s.worker.Working? && s.signalled
    case WorkerCloses => s.worker.Stopped?
    case EnterShutdown => s.main.pc.Serving? && s.signalled
    case WaiterCloses => s.schedCancelled && AllExited(s)
    case StopReturns => s.main.pc.Stopping? && s.allDone
    case StopTimesOut => s.main.pc.Stopping? && s.now >= s.main.pc.deadline
    case WorkerSeen => s.main.pc.Waiting? && s.worker.Signalled?
    case WorkerTimesOut => s.main.pc.Waiting? && s.now >= s.main.pc.deadline
    case DrainReturns => s.main.pc.Draining?
    case Decide => s.main.pc.Deciding?
  }

  /** After Stop has returned: wait for the worker, if there is one. */
  function AfterStop(m: Main, now: int, noWorker: bool, failed: bool): Main {
    if noWorker
    then m.(schedErr := failed, pc := Draining, at := m.at.(waitFrom := now, waitTo := now, drainFrom := now))
    else m.(schedErr := failed, pc := Waiting(now + TASK_STOP_TIMEOUT), at := m.at.(waitFrom := now))
  }

  function AfterWait(m: Main, now: int, failed: bool): Main {
    m.(workerErr := failed, pc := Draining, at := m.at.(waitTo := now, drainFrom := now))
  }

  function Entered(m: Main, now: int): Main {
    m.(pc := Stopping(now + TASK_STOP_TIMEOUT), at := m.at.(started := now))
  }

  ghost function Apply(s: Sys, e: Event): Sys
    requires Enabled(s, e, Any)
  {
    match e
    case Tick(d) => s.(now := s.now + d)
    case Signal => s.(signalled := true)
    case RoundStarts(i) => s.(tasks := s.tasks[i := Running])
    case RoundEnds(i) => s.(tasks := s.tasks[i := Idle])
    case TaskExits(i) => s.(tasks := s.tasks[i := Exited], ended := s.ended.(tasksAt := s.now))
    case WorkerReturns => s.(worker := Stopped)
    case WorkerCloses => s.(worker := Signalled, ended := s.ended.(workerAt := s.now))
    case EnterShutdown => s.(main := Entered(s.main, s.now), schedCancelled := true)
    case WaiterCloses => s.(allDone := true)
    case StopReturns => s.(main := AfterStop(s.main, s.now, s.worker.NoWorker?, false))
    case StopTimesOut => s.(main := AfterStop(s.main, s.now, s.worker.NoWorker?, true))
    case WorkerSeen => s.(main := AfterWait(s.main, s.now, false))
    case WorkerTimesOut => s.(main := AfterWait(s.main, s.now, true))
    case DrainReturns => s.(main := s.main.(pc := Deciding))
    case Decide => s.(main := s.main.(pc := Finished, poolClosed := !s.main.schedErr && !s.main.workerErr))
  }

  ghost predicate Init(s: Sys) {
    && s.main.pc.Serving? && !s.signalled && !s.schedCancelled && !s.allDone && !s.main.poolClosed
    && !s.main.schedErr && !s.main.workerErr
    && (s.worker.NoWorker? || s.worker.Working?)
    && s.ended.tasksAt <= s.now && s.ended.workerAt <= s.now
  }

  /** A finite run of the whole process. */
  ghost predicate Run(states: seq<Sys>, events: seq<Event>, pace: Pace) {
    && |states| == |events| + 1 && Init(states[0])
    && forall k {:trigger events[k]} :: 0 <= k < |events| ==>
         Enabled(states[k], events[k], pace) && Enabled(states[k], events[k], Any) &&
         states[k + 1] == Apply(states[k], events[k])
  }

  // ---- Invariants ----

  ghost predicate PastStop(s: Sys) {
    s.main.pc.Waiting? || s.main.pc.Draining? || s.main.pc.Deciding? || s.main.pc.Finished?
  }

  ghost predicate PastWait(s: Sys) {
    s.main.pc.Draining? || s.main.pc.Deciding? || s.main.pc.Finished?
  }

  /** Without an error from Stop, the scheduled work has ended. */
  ghost predicate TasksSafe(s: Sys) {
    (s.allDone || (PastStop(s) && !s.main.schedErr)) ==> AllExited(s)
  }

  /** Without an error from waiting, the worker has ended. */
  ghost predicate WorkerSafe(s: Sys) {
    PastWait(s) && !s.main.workerErr ==> s.worker.NoWorker? || s.worker.Signalled?
  }

  /** The pool is closed at the end, when there was no error. */
  ghost predicate PoolSafe(s: Sys) {
    s.main.poolClosed <==> s.main.pc.Finished? && !s.main.schedErr && !s.main.workerErr
  }

  ghost predicate Safe(s: Sys) {
    TasksSafe(s) && WorkerSafe(s) && PoolSafe(s)
  }

  /** The worker's share of the time. */
  ghost predicate Timed(s: Sys) {
    && (s.main.pc.Stopping? ==> s.main.pc.deadline == s.main.at.started + TASK_STOP_TIMEOUT)
    && (s.main.pc.Waiting? ==> s.main.pc.deadline == s.main.at.waitFrom + TASK_STOP_TIMEOUT)
    && (PastWait(s) && s.main.workerErr ==> s.main.at.waitTo - s.main.at.waitFrom >= TASK_STOP_TIMEOUT)
    && (!PastWait(s) ==> !s.main.workerErr)
  }

  /** How long stopping the scheduler takes when main is prompt. */
  ghost predicate StopBounded(s: Sys) {
    && (s.main.pc.Stopping? ==> s.main.at.started <= s.now <= s.main.at.started + TASK_STOP_TIMEOUT)
    && (PastStop(s) ==> s.main.at.started <= s.main.at.waitFrom <= s.main.at.started + TASK_STOP_TIMEOUT)
  }

  /** ... and waiting for the worker. */
  ghost predicate WaitBounded(s: Sys) {
    && (s.main.pc.Waiting? ==> s.main.at.waitFrom <= s.now <= s.main.at.waitFrom + TASK_STOP_TIMEOUT)
    && (PastWait(s) ==> s.main.at.waitFrom <= s.main.at.drainFrom <= s.main.at.waitFrom + TASK_STOP_TIMEOUT)
  }

  /** Nothing has ended in the future. */
  ghost predicate EndedInPast(s: Sys) {
    s.ended.tasksAt <= s.now && s.ended.workerAt <= s.now
  }

  /** Main's times are in order. */
  ghost predicate InOrder(m: Main, now: int) {
    && (!m.pc.Serving? ==> m.at.started <= now)
    && (m.pc.Waiting? || m.pc.Draining? || m.pc.Deciding? || m.pc.Finished? ==> m.at.started <= m.at.waitFrom <= now)
    && (m.pc.Draining? || m.pc.Deciding? || m.pc.Finished? ==> m.at.waitFrom <= m.at.waitTo == m.at.drainFrom <= now)
  }

  /** A wait that timed out took its whole time. */
  ghost predicate TimedOut(s: Sys) {
    && (!PastStop(s) ==> !s.main.schedErr)
    && (s.main.schedErr ==> s.main.at.waitFrom >= s.main.at.started + TASK_STOP_TIMEOUT)
  }

  function Later(a: int, b: int): int {
    if a < b then b else a
  }

  /** An eager main leaves Stop when the last task has returned. */
  ghost predicate StopEager(s: Sys) {
    && (s.main.pc.Stopping? && AllExited(s) ==> s.now <= Later(s.main.at.started, s.ended.tasksAt))
    && (PastStop(s) && !s.main.schedErr ==>
          s.ended.tasksAt <= s.main.at.waitFrom <= Later(s.main.at.started, s.ended.tasksAt))
    && (PastStop(s) && s.main.schedErr && AllExited(s) ==> s.ended.tasksAt >= s.main.at.started + TASK_STOP_TIMEOUT)
  }

  /** ... and the wait for the worker, if there is one, when its channel is closed. */
  ghost predicate WaitEager(s: Sys) {
    && (s.main.pc.Waiting? ==> !s.worker.NoWorker?)
    && (s.main.pc.Waiting? && s.worker.Signalled? ==> s.now <= Later(s.main.at.waitFrom, s.ended.workerAt))
    && (PastWait(s) && s.worker.NoWorker? ==> s.main.at.drainFrom == s.main.at.waitFrom && !s.main.workerErr)
    && (PastWait(s) && !s.worker.NoWorker? && !s.main.workerErr ==>
          s.ended.workerAt <= s.main.at.drainFrom <= Later(s.main.at.waitFrom, s.ended.workerAt))
    && (PastWait(s) && s.main.workerErr && s.worker.Signalled? ==>
          s.ended.workerAt >= s.main.at.waitFrom + TASK_STOP_TIMEOUT)
  }

  /** A task that has returned does not start again. */
  lemma ExitedStays(s: Sys, e: Event)
    requires Enabled(s, e, Any) && AllExited(s)
    ensures AllExited(Apply(s, e))
  {
  }

  lemma StepKeepsTasksSafe(s: Sys, e: Event)
    requires Enabled(s, e, Any) && TasksSafe(s)
    ensures TasksSafe(Apply(s, e))
  {
    if AllExited(s) {
      ExitedStays(s, e);
    }
  }

  lemma StepKeepsWorkerSafe(s: Sys, e: Event)
    requires Enabled(s, e, Any) && WorkerSafe(s)
    ensures WorkerSafe(Apply(s, e))
  {
  }

  lemma StepKeepsPoolSafe(s: Sys, e: Event)
    requires Enabled(s, e, Any) && PoolSafe(s)
    ensures PoolSafe(Apply(s, e))
  {
  }

  lemma ClosedStaysClosed(s: Sys, e: Event)
    requires Enabled(s, e, Any) && Safe(s) && s.main.poolClosed
    ensures Apply(s, e).main.poolClosed
  {
  }

  lemma StepKeepsTimed(s: Sys, e: Event)
    requires Enabled(s, e, Any) && Timed(s)
    ensures Timed(Apply(s, e))
  {
  }

  lemma StepKeepsStopBounded(s: Sys, e: Event, pace: Pace)
    requires Enabled(s, e, pace) && !pace.Any? && Enabled(s, e, Any) && Timed(s) && StopBounded(s)
    ensures StopBounded(Apply(s, e))
  {
    match e
    case Tick(d) =>
    case EnterShutdown =>
    case StopReturns =>
    case StopTimesOut =>
    case WorkerSeen =>
    case WorkerTimesOut =>
    case _ =>
      assert Apply(s, e).now == s.now && Apply(s, e).main.at == s.main.at;
  }

  lemma StepKeepsWaitBounded(s: Sys, e: Event, pace: Pace)
    requires Enabled(s, e, pace) && !pace.Any? && Enabled(s, e, Any) && Timed(s) && WaitBounded(s)
    ensures WaitBounded(Apply(s, e))
  {
    match e
    case Tick(d) =>
    case EnterShutdown =>
    case StopReturns =>
    case StopTimesOut =>
    case WorkerSeen =>
    case WorkerTimesOut =>
    case _ =>
      assert Apply(s, e).now == s.now && Apply(s, e).main.at == s.main.at;
  }

  lemma StepKeepsEndedInPast(s: Sys, e: Event)
    requires Enabled(s, e, Any) && EndedInPast(s)
    ensures EndedInPast(Apply(s, e))
  {
  }

  lemma StepKeepsInOrder(s: Sys, e: Event)
    requires Enabled(s, e, Any) && InOrder(s.main, s.now)
    ensures InOrder(Apply(s, e).main, Apply(s, e).now)
  {
    match e
    case Tick(d) =>
    case EnterShutdown =>
    case StopReturns =>
    case StopTimesOut =>
    case WorkerSeen =>
    case WorkerTimesOut =>
    case DrainReturns =>
    case Decide =>
    case _ =>
      assert Apply(s, e).now == s.now && Apply(s, e).main == s.main;
  }

  lemma StepKeepsTimedOut(s: Sys, e: Event)
    requires Enabled(s, e, Any) && Timed(s) && TimedOut(s)
    ensures TimedOut(Apply(s, e))
  {
  }

  /** All tasks have returned when the last one has. */
  lemma LastExit(s: Sys, e: Event)
    requires Enabled(s, e, Any) && !AllExited(s) && AllExited(Apply(s, e))
    ensures e.TaskExits?
  {
    var i :| 0 <= i < |s.tasks| && !s.tasks[i].Exited?;
    assert Apply(s, e).tasks[i].Exited?;
  }

  /** Steps of main's own goroutine. */
  predicate OfMain(e: Event) {
    e.EnterShutdown? || e.StopReturns? || e.StopTimesOut? || e.WorkerSeen? || e.WorkerTimesOut? || e.DrainReturns? || e.Decide?
  }

  lemma MainKeepsStopEager(s: Sys, e: Event)
    requires Enabled(s, e, Eager) && Enabled(s, e, Any) && TasksSafe(s) && Timed(s) && InOrder(s.main, s.now)
    requires EndedInPast(s) && StopEager(s) && OfMain(e)
    ensures StopEager(Apply(s, e))
  {
    var t := Apply(s, e);
    assert t.tasks == s.tasks && t.ended == s.ended && t.now == s.now;
    assert AllExited(t) == AllExited(s);
  }

  lemma StepKeepsStopEager(s: Sys, e: Event)
    requires Enabled(s, e, Eager) && Enabled(s, e, Any) && TasksSafe(s) && Timed(s) && InOrder(s.main, s.now)
    requires EndedInPast(s) && TimedOut(s) && StopEager(s)
    ensures StopEager(Apply(s, e))
  {
    if OfMain(e) {
      MainKeepsStopEager(s, e);
    } else {
      var t := Apply(s, e);
      assert t.main == s.main;
      if AllExited(t) && !AllExited(s) {
        LastExit(s, e);
      }
    }
  }

  lemma MainKeepsWaitEager(s: Sys, e: Event)
    requires Enabled(s, e, Eager) && Enabled(s, e, Any) && Timed(s) && InOrder(s.main, s.now)
    requires EndedInPast(s) && WaitEager(s) && OfMain(e)
    ensures WaitEager(Apply(s, e))
  {
    var t := Apply(s, e);
    assert t.worker == s.worker && t.ended == s.ended && t.now == s.now;
  }

  lemma OthersKeepWaitEager(s: Sys, e: Event)
    requires Enabled(s, e, Eager) && Enabled(s, e, Any) && WorkerSafe(s) && Timed(s) && InOrder(s.main, s.now)
    requires EndedInPast(s) && WaitEager(s) && !OfMain(e)
    ensures WaitEager(Apply(s, e))
  {
    var t := Apply(s, e);
    assert t.main == s.main && s.now <= t.now;
    assert t.worker.NoWorker? <==> s.worker.NoWorker?;
  }

  lemma StepKeepsWaitEager(s: Sys, e: Event)
    requires Enabled(s, e, Eager) && Enabled(s, e, Any) && WorkerSafe(s) && Timed(s) && InOrder(s.main, s.now)
    requires EndedInPast(s) && WaitEager(s)
    ensures WaitEager(Apply(s, e))
  {
    if OfMain(e) {
      MainKeepsWaitEager(s, e);
    } else {
      OthersKeepWaitEager(s, e);
    }
  }

  ghost predicate Inv(s: Sys, pace: Pace) {
    && Safe(s) && Timed(s) && InOrder(s.main, s.now) && EndedInPast(s) && TimedOut(s)
    && (!pace.Any? ==> StopBounded(s) && WaitBounded(s))
    && (pace.Eager? ==> StopEager(s) && WaitEager(s))
  }

  lemma StepKeeps(s: Sys, e: Event, t: Sys, pace: Pace)
    requires Inv(s, pace) && Enabled(s, e, pace) && Enabled(s, e, Any) && t == Apply(s, e)
    ensures Inv(t, pace)
  {
    StepKeepsTasksSafe(s, e);
    StepKeepsWorkerSafe(s, e);
    StepKeepsPoolSafe(s, e);
    StepKeepsTimed(s, e);
    StepKeepsInOrder(s, e);
    StepKeepsEndedInPast(s, e);
    StepKeepsTimedOut(s, e);
    if !pace.Any? {
      StepKeepsStopBounded(s, e, pace);
      StepKeepsWaitBounded(s, e, pace);
    }
    if pace.Eager? {
      StepKeepsStopEager(s, e);
      StepKeepsWaitEager(s, e);
    }
  }

  lemma {:induction false} RunKeeps(states: seq<Sys>, events: seq<Event>, pace: Pace, k: nat)
    requires Run(states, events, pace) && k < |states|
    ensures Inv(states[k], pace)
  {
    if k > 0 {
      RunKeeps(states, events, pace, k - 1);
      StepKeeps(states[k - 1], events[k - 1], states[k], pace);
    }
  }

  // ---- Main results ----

  lemma {:induction false} StaysClosed(states: seq<Sys>, events: seq<Event>, pace: Pace, k: nat, l: nat)
    requires Run(states, events, pace) && k <= l < |states| && states[k].main.poolClosed
    ensures states[l].main.poolClosed
  {
    if k < l {
      StaysClosed(states, events, pace, k, l - 1);
      RunKeeps(states, events, pace, l - 1);
      var s, e := states[l - 1], events[l - 1];
      assert Enabled(s, e, Any) && states[l] == Apply(s, e);
      ClosedStaysClosed(s, e);
    }
  }

  /** In every run, from the moment the pool is closed on, no scheduled task is running or
      will run again, and the worker, if any, has returned. */
  lemma PoolOutlivesWork(states: seq<Sys>, events: seq<Event>, pace: Pace, k: nat, l: nat)
    requires Run(states, events, pace) && k <= l < |states| && states[k].main.poolClosed
    ensures states[l].main.poolClosed && AllExited(states[l])
    ensures states[l].worker.NoWorker? || states[l].worker.Signalled?
  {
    StaysClosed(states, events, pace, k, l);
    RunKeeps(states, events, pace, l);
  }

  /** Stop returns nil only when every task has returned. */
  lemma StopReturnsOnlyWhenDone(states: seq<Sys>, events: seq<Event>, pace: Pace, k: nat)
    requires Run(states, events, pace) && k < |events| && events[k].StopReturns?
    ensures AllExited(states[k])
  {
    RunKeeps(states, events, pace, k);
  }

  /** The pool is left open exactly when a wait timed out; the scheduler and the worker are
      given up only after thirty seconds each, however long the other took. */
  lemma WorkerGetsItsTime(states: seq<Sys>, events: seq<Event>, pace: Pace, k: nat)
    requires Run(states, events, pace) && k < |states| && PastWait(states[k])
    ensures states[k].main.workerErr ==> states[k].main.at.waitTo - states[k].main.at.waitFrom >= 30_000_000_000
    ensures states[k].main.schedErr ==> states[k].main.at.waitFrom - states[k].main.at.started >= 30_000_000_000
    ensures states[k].main.pc.Finished? ==> (states[k].main.poolClosed <==> !states[k].main.schedErr && !states[k].main.workerErr)
  {
    RunKeeps(states, events, pace, k);
  }

  /** With a main that is at least prompt the waits before s.Shutdown take at most sixty seconds. */
  lemma WaitsAreBounded(states: seq<Sys>, events: seq<Event>, pace: Pace, k: nat)
    requires Run(states, events, pace) && !pace.Any? && k < |states| && PastWait(states[k])
    ensures 0 <= states[k].main.at.drainFrom - states[k].main.at.started <= 60_000_000_000
  {
    RunKeeps(states, events, pace, k);
  }

  /** Until the signal main serves, no task returns and the worker works on. */
  lemma {:induction false} NothingStopsBeforeTheSignal(states: seq<Sys>, events: seq<Event>, pace: Pace, k: nat)
    requires Run(states, events, pace) && k < |states| && !states[k].signalled
    ensures states[k].main.pc.Serving? && !states[k].schedCancelled && states[k].worker == states[0].worker
    ensures |states[k].tasks| == |states[0].tasks|
    ensures forall i :: 0 <= i < |states[0].tasks| && states[k].tasks[i].Exited? ==> states[0].tasks[i].Exited?
  {
    if k > 0 {
      var s, e := states[k - 1], events[k - 1];
      assert Enabled(s, e, Any) && states[k] == Apply(s, e);
      NothingStopsBeforeTheSignal(states, events, pace, k - 1);
    }
  }

  // ---- Shutting down can be completed ----

  lemma TakeStep(states: seq<Sys>, events: seq<Event>, e: Event, pace: Pace)
    returns (states': seq<Sys>, events': seq<Event>)
    requires Run(states, events, pace) && Enabled(states[|events|], e, pace) && Enabled(states[|events|], e, Any)
    ensures states' == states + [Apply(states[|events|], e)] && events' == events + [e] && Run(states', events', pace)
  {
    states', events' := states + [Apply(states[|events|], e)], events + [e];
  }

  /** One run continues another. */
  ghost predicate Extends(pace: Pace, states: seq<Sys>, events: seq<Event>, states': seq<Sys>, events': seq<Event>) {
    Run(states', events', pace) && states <= states' && events <= events'
  }

  lemma {:induction false} StoppingIsCancelled(states: seq<Sys>, events: seq<Event>, pace: Pace, k: nat)
    requires Run(states, events, pace) && k < |states|
    ensures !states[k].main.pc.Serving? ==> states[k].schedCancelled
  {
    if k > 0 {
      var s, e := states[k - 1], events[k - 1];
      assert Enabled(s, e, Any) && states[k] == Apply(s, e);
      StoppingIsCancelled(states, events, pace, k - 1);
    }
  }

  lemma EntersShutdown(states: seq<Sys>, events: seq<Event>, pace: Pace) returns (states': seq<Sys>, events': seq<Event>)
    requires Run(states, events, pace)
    ensures Extends(pace, states, events, states', events') && !states'[|events'|].main.pc.Serving?
  {
    states', events' := states, events;
    if states[|events|].main.pc.Serving? {
      states', events' := TakeStep(states', events', Signal, pace);
      states', events' := TakeStep(states', events', EnterShutdown, pace);
    }
  }

  /** Time passes to the deadline of a wait for something that has not happened. */
  lemma ReachesDeadline(states: seq<Sys>, events: seq<Event>, pace: Pace) returns (states': seq<Sys>, events': seq<Event>)
    requires Run(states, events, pace) && !Due(states[|events|])
    requires states[|events|].main.pc.Stopping? || states[|events|].main.pc.Waiting?
    ensures Extends(pace, states, events, states', events')
    ensures states'[|events'|].main == states[|events|].main
    ensures states'[|events'|].now >= states[|events|].main.pc.deadline
  {
    var s := states[|events|];
    states', events' := states, events;
    if s.now < s.main.pc.deadline {
      states', events' := TakeStep(states, events, Tick(s.main.pc.deadline - s.now), pace);
    }
  }

  lemma LeavesStop(states: seq<Sys>, events: seq<Event>, pace: Pace) returns (states': seq<Sys>, events': seq<Event>)
    requires Run(states, events, pace) && !states[|events|].main.pc.Serving?
    ensures Extends(pace, states, events, states', events') && PastStop(states'[|events'|])
  {
    states', events' := states, events;
    if states[|events|].main.pc.Stopping? {
      StoppingIsCancelled(states, events, pace, |events|);
      if AllExited(states[|events|]) {
        states', events' := TakeStep(states', events', WaiterCloses, pace);
        states', events' := TakeStep(states', events', StopReturns, pace);
      } else {
        states', events' := ReachesDeadline(states, events, pace);
        states', events' := TakeStep(states', events', StopTimesOut, pace);
      }
    }
  }

  lemma LeavesWait(states: seq<Sys>, events: seq<Event>, pace: Pace) returns (states': seq<Sys>, events': seq<Event>)
    requires Run(states, events, pace) && PastStop(states[|events|])
    ensures Extends(pace, states, events, states', events') && PastWait(states'[|events'|])
  {
    states', events' := states, events;
    if states[|events|].main.pc.Waiting? {
      if states[|events|].worker.Signalled? {
        states', events' := TakeStep(states', events', WorkerSeen, pace);
      } else {
        states', events' := ReachesDeadline(states, events, pace);
        states', events' := TakeStep(states', events', WorkerTimesOut, pace);
      }
    }
  }

  lemma LeavesDrain(states: seq<Sys>, events: seq<Event>, pace: Pace) returns (states': seq<Sys>, events': seq<Event>)
    requires Run(states, events, pace) && PastWait(states[|events|])
    ensures Extends(pace, states, events, states', events') && states'[|events'|].main.pc.Finished?
  {
    states', events' := states, events;
    if states'[|events'|].main.pc.Draining? {
      states', events' := TakeStep(states', events', DrainReturns, pace);
    }
    if states'[|events'|].main.pc.Deciding? {
      states', events' := TakeStep(states', events', Decide, pace);
    }
  }

  /** Nothing can hang the shutdown: every run of the process, also one whose tasks or worker
      never end, has a continuation in which main finishes. */
  lemma ShutdownCanFinish(states: seq<Sys>, events: seq<Event>, pace: Pace)
    returns (states': seq<Sys>, events': seq<Event>)
    requires Run(states, events, pace)
    ensures Extends(pace, states, events, states', events') && states'[|events'|].main.pc.Finished?
  {
    states', events' := EntersShutdown(states, events, pace);
    states', events' := LeavesStop(states', events', pace);
    states', events' := LeavesWait(states', events', pace);
    states', events' := LeavesDrain(states', events', pace);
  }

  // ---- The time left for draining requests ----

  /** What is left of the shutdown context when s.Shutdown is called. The context is made on
      entry to shutdown, before the waits. */
  function DrainBudget(s: Sys): int {
    var left := s.main.at.started + SHUTDOWN_TIMEOUT - s.main.at.drainFrom;
    if left > 0 then left else 0
  }

  /** All scheduled work and the worker had ended by then. */
  ghost predicate EndedBefore(s: Sys, time: int) {
    && AllExited(s) && s.ended.tasksAt < time
    && (s.worker.NoWorker? || (s.worker.Signalled? && s.ended.workerAt < time))
  }

  /** In every run with an eager main, requests have time to drain exactly when the last task
      and the worker had ended less than fifteen seconds after shutdown began. */
  lemma DrainBudgetExactly(states: seq<Sys>, events: seq<Event>, k: nat)
    requires Run(states, events, Eager) && k < |states| && PastWait(states[k])
    ensures DrainBudget(states[k]) > 0 <==> EndedBefore(states[k], states[k].main.at.started + 15_000_000_000)
  {
    RunKeeps(states, events, Eager, k);
  }

  /** In every run, whatever main's pace: once a wait has timed out, nothing is left for draining. */
  lemma TimeoutLeavesNothing(states: seq<Sys>, events: seq<Event>, pace: Pace, k: nat)
    requires Run(states, events, pace) && k < |states| && PastWait(states[k])
    requires states[k].main.schedErr || states[k].main.workerErr
    ensures DrainBudget(states[k]) == 0
  {
    RunKeeps(states, events, pace, k);
  }

  /** Main waits for a worker since time zero; there is no task. */
  ghost function Waited(now: int): Sys {
    Sys(now, Main(Waiting(TASK_STOP_TIMEOUT), false, false, false, Times(0, 0, 0, 0)), true, true, [], true, Working,
        Ended(0, 0))
  }

  lemma WaitIsReached() returns (states: seq<Sys>, events: seq<Event>)
    ensures Run(states, events, Eager) && states[|events|] == Waited(0)
  {
    var s0 := Sys(0, Main(Serving, false, false, false, Times(0, 0, 0, 0)), false, false, [], false, Working, Ended(0, 0));
    states, events := [s0], [];
    states, events := TakeStep(states, events, Signal, Eager);
    states, events := TakeStep(states, events, EnterShutdown, Eager);
    states, events := TakeStep(states, events, WaiterCloses, Eager);
    states, events := TakeStep(states, events, StopReturns, Eager);
  }

  /** No task and a worker that needs twenty seconds to stop: nothing times out, the pool may
      be closed, and yet the requests get no time to drain at all. */
  lemma DrainCanBeStarved() returns (states: seq<Sys>, events: seq<Event>)
    ensures Run(states, events, Eager)
    ensures var s := states[|states| - 1];
      s.main.pc.Draining? && !s.main.schedErr && !s.main.workerErr && DrainBudget(s) == 0
  {
    states, events := WaitIsReached();
    states, events := TakeStep(states, events, Tick(20 * SECOND), Eager);
    assert states[|events|] == Waited(20 * SECOND);
    states, events := TakeStep(states, events, WorkerReturns, Eager);
    states, events := TakeStep(states, events, WorkerCloses, Eager);
    states, events := TakeStep(states, events, WorkerSeen, Eager);
  }
}
