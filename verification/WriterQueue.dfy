/**
 * The single-writer queue as a state machine: callers enqueue, one worker dequeues, each task body runs on its
 * own goroutine, timeouts release the caller while the body runs on, and a closer shuts everything down.
 * A task is named by its place in the queue's history.
 */
module WriterQueue {
  import opened Wrappers

  datatype BodyResult = Fine | Failed(reconnectable: bool)

  /** What a caller is told: what an attempt of its body said, or why none did. */
  datatype Outcome =
    | OfBody(attempt: nat, result: BodyResult)
    | Cancelled
    | ReopenFailed
    | StartFailed
    | TimedOut
    | Panicked
    | Closed

  /** Why the handle is being replaced. */
  datatype Reason = AfterPing | AfterFailure | AfterTimeout

  datatype Worker =
    | Idle
    | Checking(task: nat)
    | Reconnecting(task: nat, reason: Reason)
    | Opening(task: nat, reason: Reason)
    | Starting(task: nat, attempt: nat)
    | Running(task: nat, attempt: nat)
    | Waiting(task: nat, attempt: nat)
    | Finishing(task: nat, outcome: Outcome)
    | Draining
    | Stopped

  /** A running task body and the handle it was given. */
  datatype Body = Body(task: nat, attempt: nat, handle: nat)

  /** `Returned` is a body that came back after its caller was released, with or without the caller still alive. */
  datatype Event =
    | Pinged(task: nat, healthy: bool)
    | Opened(ok: bool)
    | Started(task: nat, attempt: nat)
    | Ended(task: nat, attempt: nat, result: BodyResult)
    | Returned(task: nat, alive: bool)
    | Fell(task: nat)

  /**
   * `next` counts the tasks enqueued so far, `queue` those not yet dequeued. `bodies` are the bodies running now,
   * `ended` the result the worker has yet to pick up, `notified` whether the current task's caller has its value.
   */
  datatype State = State(
    next: nat,
    queue: seq<nat>,
    worker: Worker,
    bodies: set<Body>,
    ended: Option<BodyResult>,
    notified: bool,
    values: map<nat, seq<Outcome>>,
    handle: Option<nat>,
    nextHandle: nat,
    closedHandles: set<nat>,
    shutdown: bool,
    cancelled: bool,
    log: seq<Event>)

  datatype Step =
    | Enqueue
    | Dequeue
    | CheckStops
    | PingOk
    | PingFails
    | CloseHandle
    | OpenHandle(ok: bool)
    | Start
    | StartFails
    | BodyEnds(body: Body, result: BodyResult)
    | TakeResult(alive: bool)
    | TimeOut
    | BodyReturned(alive: bool)
    | Finish
    | Panic
    | BeginDrain
    | DrainOne
    | Stop
    | SetShutdown
    | CancelBase
    | CloseStore

  predicate Enabled(s: State, step: Step) {
    match step
    case Enqueue => true
    case Dequeue => s.worker == Idle && s.queue != []
    case CheckStops => s.worker.Checking?
    case PingOk => s.worker.Checking? && !s.cancelled
    case PingFails => s.worker.Checking? && !s.cancelled
    case CloseHandle => s.worker.Reconnecting?
    case OpenHandle(ok) => s.worker.Opening?
    case Start => s.worker.Starting? && s.handle.Some?
    case StartFails => s.worker.Starting?
    case BodyEnds(body, result) => body in s.bodies
    case TakeResult(alive) => s.worker.Running? && s.ended.Some?
    case TimeOut => s.worker.Running?
    case BodyReturned(alive) => s.worker.Waiting? && s.ended.Some?
    case Finish => s.worker.Finishing?
    case Panic => s.worker.Checking? || s.worker.Reconnecting? || s.worker.Opening?
    case BeginDrain => s.worker == Idle && s.cancelled
    case DrainOne => s.worker == Draining && s.queue != []
    case Stop => s.worker == Draining && s.queue == [] && s.shutdown
    case SetShutdown => true
    case CancelBase => s.shutdown
    case CloseStore => s.worker == Stopped
  }

  /** The values sent to a task's caller. */
  function Given(s: State, task: nat): seq<Outcome> {
    if task in s.values then s.values[task] else []
  }

  function Values(s: State, task: nat): nat {
    |Given(s, task)|
  }

  function Give(s: State, task: nat, outcome: Outcome): State {
    s.(values := s.values[task := Given(s, task) + [outcome]])
  }

  /** `notifyCaller` sends at most one value per execution of a task. */
  function Notify(s: State, task: nat, outcome: Outcome): State {
    if s.notified then s else Give(s, task, outcome).(notified := true)
  }

  function Logged(s: State, e: Event): State {
    s.(log := s.log + [e])
  }

  function Shut(s: State): State {
    if s.handle.None? then s else s.(handle := None, closedHandles := s.closedHandles + {s.handle.value})
  }

  function AfterOpen(s: State, task: nat, reason: Reason, ok: bool): Worker {
    match reason
    case AfterPing => if ok then Starting(task, 1) else Finishing(task, ReopenFailed)
    case AfterFailure => if ok then Starting(task, 2) else Finishing(task, ReopenFailed)
    case AfterTimeout => Finishing(task, TimedOut)
  }

  function Do(s: State, step: Step): State
    requires Enabled(s, step)
  {
    match step
    case Enqueue => s.(next := s.next + 1, queue := s.queue + [s.next])
    case Dequeue => s.(queue := s.queue[1..], worker := Checking(s.queue[0]), notified := false)
    case CheckStops => s.(worker := Finishing(s.worker.task, Cancelled))
    case PingOk => Logged(s, Pinged(s.worker.task, true)).(worker := Starting(s.worker.task, 1))
    case PingFails => Logged(s, Pinged(s.worker.task, false)).(worker := Reconnecting(s.worker.task, AfterPing))
    case CloseHandle => Shut(s).(worker := Opening(s.worker.task, s.worker.reason))
    case OpenHandle(ok) =>
      var reopened := if ok then s.(handle := Some(s.nextHandle), nextHandle := s.nextHandle + 1) else s;
      Logged(reopened, Opened(ok)).(worker := AfterOpen(s, s.worker.task, s.worker.reason, ok))
    case Start =>
      var t, k := s.worker.task, s.worker.attempt;
      Logged(s, Started(t, k)).(worker := Running(t, k), bodies := s.bodies + {Body(t, k, s.handle.value)}, ended := None)
    case StartFails => s.(worker := Finishing(s.worker.task, StartFailed))
    case BodyEnds(body, result) =>
      Logged(s, Ended(body.task, body.attempt, result)).(bodies := s.bodies - {body}, ended := Some(result))
    case TakeResult(alive) =>
      var t, k, result := s.worker.task, s.worker.attempt, s.ended.value;
      var retry := k == 1 && alive && result.Failed? && result.reconnectable;
      s.(ended := None, worker := if retry then Reconnecting(t, AfterFailure) else Finishing(t, OfBody(k, result)))
    case TimeOut => Notify(s, s.worker.task, TimedOut).(worker := Waiting(s.worker.task, s.worker.attempt))
    case BodyReturned(alive) =>
      var t := s.worker.task;
      Logged(s, Returned(t, alive)).(ended := None, worker := if alive then Reconnecting(t, AfterTimeout) else Finishing(t, TimedOut))
    case Finish => Notify(s, s.worker.task, s.worker.outcome).(worker := Idle)
    case Panic => Logged(s, Fell(s.worker.task)).(worker := Finishing(s.worker.task, Panicked))
    case BeginDrain => s.(worker := Draining)
    case DrainOne => Give(s, s.queue[0], Closed).(queue := s.queue[1..])
    case Stop => s.(worker := Stopped)
    case SetShutdown => s.(shutdown := true)
    case CancelBase => s.(cancelled := true)
    case CloseStore => Shut(s)
  }

  // ------------------------------------------------------------------ invariant

  predicate Busy(w: Worker) {
    !w.Idle? && !w.Draining? && !w.Stopped?
  }

  /** The queue holds the last tasks enqueued, in order; the current task is the one before them. */
  ghost predicate QueueOk(s: State) {
    && |s.queue| <= s.next
    && (forall i | 0 <= i < |s.queue| :: s.queue[i] == s.next - |s.queue| + i)
    && (Busy(s.worker) ==> s.worker.task + 1 == s.next - |s.queue|)
  }

  function Expected(s: State, t: nat): nat {
    if t >= s.next - |s.queue| then 0
    else if Busy(s.worker) && t == s.worker.task && !s.notified then 0
    else 1
  }

  /** Every task taken from the queue has one value, the current one if its caller was notified. */
  ghost predicate ValuesOk(s: State) {
    forall t: nat :: Values(s, t) == Expected(s, t)
  }

  /** At most one body runs: the one the worker waits for, on the open handle. */
  ghost predicate BodiesOk(s: State) {
    && (s.bodies == {} || exists b :: s.bodies == {b} && WorkerAwaits(s.worker, b) && s.handle == Some(b.handle))
    && (s.worker.Running? || s.worker.Waiting? ==> (s.bodies == {} <==> s.ended.Some?))
    && (s.ended.Some? ==> s.worker.Running? || s.worker.Waiting?)
    && (forall h | h in s.closedHandles :: h < s.nextHandle)
    && (s.handle.Some? ==> s.handle.value < s.nextHandle && s.handle.value !in s.closedHandles)
  }

  predicate WorkerAwaits(w: Worker, b: Body) {
    (w.Running? || w.Waiting?) && w.task == b.task && w.attempt == b.attempt
  }

  function LastEvent(log: seq<Event>): Option<Event> {
    if log == [] then None else Some(log[|log| - 1])
  }

  /** Body starts go up through the queue, and within a task from the first attempt to the second. */
  predicate Before(a: Event, b: Event) {
    a.Started? && b.Started? ==> a.task < b.task || (a.task == b.task && a.attempt < b.attempt)
  }

  /** After this the handle is replaced before anything else happens. */
  predicate MustReopen(e: Event) {
    (e.Pinged? && !e.healthy) || (e.Returned? && e.alive)
  }

  /** What comes right before an event: pings before starts, a start before its end, a reason before a reopening. */
  predicate Follows(log: seq<Event>, i: nat)
    requires i < |log|
  {
    match log[i]
    case Pinged(_, _) => i == 0 || !MustReopen(log[i - 1])
    case Opened(_) => i >= 1 && (MustReopen(log[i - 1]) || (log[i - 1].Ended? && log[i - 1] == Ended(log[i - 1].task, 1, Failed(true))))
    case Started(t, k) =>
      && i >= 1
      && (k == 1 ==> log[i - 1] == Pinged(t, true) || (i >= 2 && log[i - 1] == Opened(true) && log[i - 2] == Pinged(t, false)))
      && (k != 1 ==> k == 2 && i >= 2 && log[i - 1] == Opened(true) && log[i - 2] == Ended(t, 1, Failed(true)))
    case Ended(t, k, _) => i >= 1 && log[i - 1] == Started(t, k)
    case Returned(t, _) => i >= 1 && log[i - 1].Ended? && log[i - 1].task == t
    case Fell(_) => true
  }

  ghost predicate LogOk(log: seq<Event>) {
    && (forall i, j | 0 <= i < j < |log| :: Before(log[i], log[j]))
    && (forall i | 0 <= i < |log| :: Follows(log, i))
  }

  predicate Settled(log: seq<Event>) {
    log == [] || !MustReopen(log[|log| - 1])
  }

  /** A task's body is under way or over, and the log ends with that. */
  predicate BodyFits(s: State, t: nat, k: nat) {
    if s.ended.Some? then LastEvent(s.log) == Some(Ended(t, k, s.ended.value)) else LastEvent(s.log) == Some(Started(t, k))
  }

  /** Which starts the worker may still log, and how the log ends. */
  ghost predicate WorkerFits(s: State) {
    match s.worker
    case Idle => StartsBelow(s.log, s.next - |s.queue|, 1) && Settled(s.log)
    case Draining => StartsBelow(s.log, s.next - |s.queue|, 1)
    case Stopped => StartsBelow(s.log, s.next - |s.queue|, 1)
    case Checking(t) => StartsBelow(s.log, t, 1) && Settled(s.log)
    case Reconnecting(t, reason) => ReasonFits(s.log, t, reason)
    case Opening(t, reason) => ReasonFits(s.log, t, reason)
    case Starting(t, k) =>
      && StartsBelow(s.log, t, k) && (k == 1 || k == 2) && Settled(s.log)
      && Follows(s.log + [Started(t, k)], |s.log|)
    case Running(t, k) => StartsBelow(s.log, t, k + 1) && (k == 1 || k == 2) && BodyFits(s, t, k)
    case Waiting(t, k) => StartsBelow(s.log, t + 1, 1) && BodyFits(s, t, k)
    case Finishing(t, _) => StartsBelow(s.log, t + 1, 1) && Settled(s.log)
  }

  /** Every logged start is before attempt `k` of task `t`. */
  predicate StartsBelow(log: seq<Event>, t: int, k: nat) {
    forall i | 0 <= i < |log| && log[i].Started? :: log[i].task < t || (log[i].task == t && log[i].attempt < k)
  }

  predicate ReasonFits(log: seq<Event>, t: nat, reason: Reason) {
    match reason
    case AfterPing => StartsBelow(log, t, 1) && LastEvent(log) == Some(Pinged(t, false))
    case AfterFailure => StartsBelow(log, t, 2) && LastEvent(log) == Some(Ended(t, 1, Failed(true)))
    case AfterTimeout => StartsBelow(log, t + 1, 1) && LastEvent(log) == Some(Returned(t, true))
  }

  predicate PastTimeout(w: Worker) {
    w.Waiting? || ((w.Reconnecting? || w.Opening?) && w.reason == AfterTimeout)
  }

  /** The caller of the current task has its value from the timeout on, and before the task is finished only then. */
  predicate NotifiedOk(s: State) {
    && (PastTimeout(s.worker) ==> s.notified)
    && (Busy(s.worker) && s.notified ==> PastTimeout(s.worker) || s.worker.Finishing?)
  }

  ghost predicate Inv(s: State) {
    QueueOk(s) && ValuesOk(s) && NotifiedOk(s) && BodiesOk(s) && LogOk(s.log) && WorkerFits(s)
  }

  ghost predicate Init(s: State) {
    && s.next == 0 && s.queue == [] && s.worker == Idle && s.bodies == {} && s.ended.None? && s.values == map[]
    && s.handle == Some(0) && s.nextHandle == 1 && s.closedHandles == {} && !s.shutdown && !s.cancelled && s.log == []
  }

  predicate MovesQueue(step: Step) {
    step.Enqueue? || step.Dequeue? || step.DrainOne?
  }

  /** Every other step leaves the queue alone and goes on with the same task. */
  lemma QueueAside(s: State, step: Step)
    requires Enabled(s, step) && !MovesQueue(step)
    ensures var s' := Do(s, step);
            && s'.queue == s.queue && s'.next == s.next
            && (Busy(s'.worker) ==> Busy(s.worker) && s'.worker.task == s.worker.task)
  {
    hide Given;
  }

  lemma QueueKept(s: State, step: Step)
    requires QueueOk(s) && Enabled(s, step)
    ensures QueueOk(Do(s, step))
  {
    if MovesQueue(step) {
      QueueMoves(s, step);
    } else {
      hide Do, Enabled;
      QueueAside(s, step);
    }
  }

  lemma QueueMoves(s: State, step: Step)
    requires QueueOk(s) && Enabled(s, step) && MovesQueue(step)
    ensures QueueOk(Do(s, step))
  {
  }

  predicate GivesValue(step: Step) {
    step.TimeOut? || step.Finish? || step.DrainOne? || step.Dequeue? || step.Enqueue?
  }

  lemma ValuesMove(s: State, step: Step, t: nat)
    requires QueueOk(s) && Values(s, t) == Expected(s, t) && Enabled(s, step) && GivesValue(step)
    ensures Values(Do(s, step), t) == Expected(Do(s, step), t)
  {
  }

  lemma ValuesAside(s: State, step: Step)
    requires Enabled(s, step) && !GivesValue(step)
    ensures Do(s, step).values == s.values && Do(s, step).notified == s.notified
  {
    hide AfterOpen, Given;
  }

  lemma BusyAside(s: State, step: Step)
    requires Enabled(s, step) && !GivesValue(step)
    ensures Busy(Do(s, step).worker) == Busy(s.worker) && !MovesQueue(step)
  {
  }

  /** A step gives a value to the task it notifies or drains, and to no other. */
  lemma ValuesKept(s: State, step: Step)
    requires QueueOk(s) && ValuesOk(s) && Enabled(s, step)
    ensures ValuesOk(Do(s, step))
  {
    hide Do, Enabled, QueueOk;
    var s' := Do(s, step);
    forall t: nat ensures Values(s', t) == Expected(s', t) {
      assert Values(s, t) == Expected(s, t);
      if GivesValue(step) {
        ValuesMove(s, step, t);
      } else {
        ValuesAside(s, step);
        BusyAside(s, step);
        QueueAside(s, step);
      }
    }
  }

  predicate MovesBody(step: Step) {
    step.CloseHandle? || step.CloseStore? || step.OpenHandle? || step.Start? || step.BodyEnds? || step.TakeResult? || step.BodyReturned?
  }

  lemma BodiesMove(s: State, step: Step)
    requires BodiesOk(s) && Enabled(s, step) && MovesBody(step)
    ensures BodiesOk(Do(s, step))
  {
  }

  lemma BodiesFrame(s: State, step: Step)
    requires Enabled(s, step) && !MovesBody(step)
    ensures var s' := Do(s, step);
            && s'.bodies == s.bodies && s'.ended == s.ended && s'.handle == s.handle
            && s'.nextHandle == s.nextHandle && s'.closedHandles == s.closedHandles
            && (s'.worker.Running? || s'.worker.Waiting? <==> s.worker.Running? || s.worker.Waiting?)
            && (s.worker.Running? || s.worker.Waiting? ==> s'.worker.task == s.worker.task && s'.worker.attempt == s.worker.attempt)
  {
  }

  lemma BodiesAside(s: State, step: Step)
    requires BodiesOk(s) && Enabled(s, step) && !MovesBody(step)
    ensures BodiesOk(Do(s, step))
  {
    hide Do, Enabled, MovesBody;
    BodiesFrame(s, step);
  }

  lemma BodiesKept(s: State, step: Step)
    requires BodiesOk(s) && Enabled(s, step)
    ensures BodiesOk(Do(s, step))
  {
    hide BodiesOk, Enabled, Do;
    if MovesBody(step) {
      BodiesMove(s, step);
    } else {
      BodiesAside(s, step);
    }
  }

  lemma NotifiedKept(s: State, step: Step)
    requires NotifiedOk(s) && Enabled(s, step)
    ensures NotifiedOk(Do(s, step))
  {
  }

  predicate MovesLog(step: Step) {
    step.PingOk? || step.PingFails? || step.OpenHandle? || step.Start? || step.BodyEnds? || step.BodyReturned? || step.Panic?
  }

  /** The event a step logs. */
  function Logs(s: State, step: Step): Event
    requires Enabled(s, step) && MovesLog(step)
  {
    match step
    case PingOk => Pinged(s.worker.task, true)
    case PingFails => Pinged(s.worker.task, false)
    case OpenHandle(ok) => Opened(ok)
    case Start => Started(s.worker.task, s.worker.attempt)
    case BodyEnds(body, result) => Ended(body.task, body.attempt, result)
    case BodyReturned(alive) => Returned(s.worker.task, alive)
    case Panic => Fell(s.worker.task)
  }

  lemma LogAppend(log: seq<Event>, e: Event)
    requires LogOk(log)
    requires forall i | 0 <= i < |log| :: Before(log[i], e)
    requires Follows(log + [e], |log|)
    ensures LogOk(log + [e])
  {
    hide Before;
    var all := log + [e];
    forall i | 0 <= i < |all| ensures Follows(all, i) {
      if i < |log| {
        assert Follows(log, i);
      }
    }
  }

  lemma LogMoves(s: State, step: Step)
    requires Inv(s) && Enabled(s, step) && MovesLog(step)
    ensures Do(s, step).log == s.log + [Logs(s, step)] && LogOk(Do(s, step).log)
  {
    hide QueueOk, ValuesOk, LogOk;
    var e := Logs(s, step);
    assert Follows(s.log + [e], |s.log|);
    LogAppend(s.log, e);
  }

  lemma LogAside(s: State, step: Step)
    requires Enabled(s, step) && !MovesLog(step)
    ensures Do(s, step).log == s.log
  {
  }

  lemma BelowMore(log: seq<Event>, e: Event, t: int, k: nat)
    requires StartsBelow(log, t, k) && (e.Started? ==> e.task < t || (e.task == t && e.attempt < k))
    ensures StartsBelow(log + [e], t, k)
  {
  }

  lemma BelowLater(log: seq<Event>, t: int, k: nat, t': int, k': nat)
    requires StartsBelow(log, t, k) && (t < t' || (t == t' && k <= k'))
    ensures StartsBelow(log, t', k')
  {
  }

  lemma FitsWhenBodyEnds(s: State, body: Body, result: BodyResult)
    requires Inv(s) && Enabled(s, BodyEnds(body, result))
    ensures WorkerFits(Do(s, BodyEnds(body, result)))
  {
    hide ValuesOk, NotifiedOk, LogOk, QueueOk, StartsBelow;
    var e, top := Ended(body.task, body.attempt, result), TopStart(s);
    assert WorkerAwaits(s.worker, body);
    BelowMore(s.log, e, top.0, top.1);
  }

  lemma FitsAfterOpen(s: State, ok: bool)
    requires WorkerFits(s) && Enabled(s, OpenHandle(ok))
    ensures WorkerFits(Do(s, OpenHandle(ok)))
  {
    hide StartsBelow;
    var top := TopStart(s);
    BelowMore(s.log, Opened(ok), top.0, top.1);
    BelowLater(s.log + [Opened(ok)], top.0, top.1, s.worker.task + 1, 1);
  }

  lemma FitsAfterStart(s: State)
    requires WorkerFits(s) && Enabled(s, Start)
    ensures WorkerFits(Do(s, Start))
  {
    hide StartsBelow, Follows;
    var t, k := s.worker.task, s.worker.attempt;
    BelowLater(s.log, t, k, t, k + 1);
    BelowMore(s.log, Started(t, k), t, k + 1);
  }

  lemma FitsAfterPing(s: State, step: Step)
    requires WorkerFits(s) && Enabled(s, step) && (step.PingOk? || step.PingFails?)
    ensures WorkerFits(Do(s, step))
  {
    hide StartsBelow;
    BelowMore(s.log, Logs(s, step), s.worker.task, 1);
  }

  lemma FitsAfterReturn(s: State, step: Step)
    requires WorkerFits(s) && Enabled(s, step) && (step.BodyReturned? || step.Panic?)
    ensures WorkerFits(Do(s, step))
  {
    hide StartsBelow, Follows;
    var top := TopStart(s);
    BelowMore(s.log, Logs(s, step), top.0, top.1);
    BelowLater(s.log + [Logs(s, step)], top.0, top.1, s.worker.task + 1, 1);
  }

  lemma FitsWhenLogMoves(s: State, step: Step)
    requires Inv(s) && Enabled(s, step) && MovesLog(step)
    ensures WorkerFits(Do(s, step))
  {
    hide Do, Enabled, QueueOk, ValuesOk, NotifiedOk, BodiesOk, LogOk, WorkerFits;
    match step
    case BodyEnds(body, result) => FitsWhenBodyEnds(s, body, result);
    case OpenHandle(ok) => FitsAfterOpen(s, ok);
    case Start => FitsAfterStart(s);
    case PingOk => FitsAfterPing(s, step);
    case PingFails => FitsAfterPing(s, step);
    case BodyReturned(_) => FitsAfterReturn(s, step);
    case Panic => FitsAfterReturn(s, step);
    case _ =>
  }

  /** No start from here on is in the log yet. */
  function TopStart(s: State): (int, nat)
    requires Busy(s.worker)
  {
    match s.worker
    case Checking(t) => (t, 1)
    case Reconnecting(t, reason) => ReasonTop(t, reason)
    case Opening(t, reason) => ReasonTop(t, reason)
    case Starting(t, k) => (t, k)
    case Running(t, k) => (t, k + 1)
    case Waiting(t, _) => (t + 1, 1)
    case Finishing(t, _) => (t + 1, 1)
  }

  function ReasonTop(t: nat, reason: Reason): (int, nat) {
    match reason case AfterPing => (t, 1) case AfterFailure => (t, 2) case AfterTimeout => (t + 1, 1)
  }

  predicate WorkerSteps(step: Step) {
    !step.Enqueue? && !step.DrainOne? && !step.SetShutdown? && !step.CancelBase? && !step.CloseStore?
  }

  lemma WorkerRests(s: State, step: Step)
    requires Enabled(s, step) && !WorkerSteps(step)
    ensures var s' := Do(s, step);
            s'.worker == s.worker && s'.log == s.log && s'.ended == s.ended && s'.next - |s'.queue| >= s.next - |s.queue|
  {
    hide AfterOpen, Given;
  }

  lemma FitsAtRest(s: State, step: Step)
    requires WorkerFits(s) && Enabled(s, step) && !WorkerSteps(step)
    ensures WorkerFits(Do(s, step))
  {
    hide Do, Enabled, WorkerSteps, StartsBelow;
    WorkerRests(s, step);
    var s' := Do(s, step);
    if s.worker.Idle? || s.worker.Draining? || s.worker.Stopped? {
      BelowLater(s.log, s.next - |s.queue|, 1, s'.next - |s'.queue|, 1);
    }
  }

  predicate GivesUp(step: Step) {
    step.CheckStops? || step.StartFails? || step.TimeOut?
  }

  lemma FitsGivingUp(s: State, step: Step)
    requires WorkerFits(s) && QueueOk(s) && Enabled(s, step) && GivesUp(step)
    ensures WorkerFits(Do(s, step))
  {
    hide QueueOk, StartsBelow;
    FitsLater(s);
  }

  lemma FitsGoingOn(s: State, step: Step)
    requires WorkerFits(s) && QueueOk(s) && Enabled(s, step) && WorkerSteps(step) && !MovesLog(step) && !GivesUp(step)
    ensures WorkerFits(Do(s, step))
  {
    hide StartsBelow;
    FitsLater(s);
  }

  lemma FitsAside(s: State, step: Step)
    requires Inv(s) && Enabled(s, step) && !MovesLog(step)
    ensures WorkerFits(Do(s, step))
  {
    hide ValuesOk, LogOk, BodiesOk, QueueOk, StartsBelow, Do, Enabled, WorkerFits;
    if !WorkerSteps(step) {
      FitsAtRest(s, step);
    } else if GivesUp(step) {
      FitsGivingUp(s, step);
    } else {
      FitsGoingOn(s, step);
    }
  }

  /** A task's own bounds also bound it once it is being finished, and the queue's head once it is done. */
  lemma FitsLater(s: State)
    requires WorkerFits(s) && QueueOk(s)
    ensures Busy(s.worker) ==> StartsBelow(s.log, s.worker.task + 1, 1)
    ensures !Busy(s.worker) ==> StartsBelow(s.log, s.next - |s.queue| + 1, 1) && StartsBelow(s.log, s.next - |s.queue|, 1)
    ensures !Busy(s.worker) && s.queue != [] ==> StartsBelow(s.log, s.queue[0], 1)
  {
  }

  // --------------------------------------------------------------------- all runs

  lemma StepKeeps(s: State, step: Step)
    requires Inv(s) && Enabled(s, step)
    ensures Inv(Do(s, step))
  {
    hide QueueOk, ValuesOk, NotifiedOk, BodiesOk, LogOk, WorkerFits, Do, Enabled;
    QueueKept(s, step);
    ValuesKept(s, step);
    NotifiedKept(s, step);
    BodiesKept(s, step);
    if MovesLog(step) {
      LogMoves(s, step);
      FitsWhenLogMoves(s, step);
    } else {
      LogAside(s, step);
      FitsAside(s, step);
    }
  }

  ghost predicate Valid(s: State, steps: seq<Step>)
    decreases |steps|
  {
    steps != [] ==> Enabled(s, steps[0]) && Valid(Do(s, steps[0]), steps[1..])
  }

  ghost function Run(s: State, steps: seq<Step>): State
    requires Valid(s, steps)
    decreases |steps|
  {
    if steps == [] then s else Run(Do(s, steps[0]), steps[1..])
  }

  lemma {:induction false} RunKeeps(s: State, steps: seq<Step>)
    requires Inv(s) && Valid(s, steps)
    ensures Inv(Run(s, steps))
    decreases |steps|
  {
    hide Inv, Do, Enabled;
    if steps != [] {
      StepKeeps(s, steps[0]);
      RunKeeps(Do(s, steps[0]), steps[1..]);
    }
  }

  lemma InitKeeps(s: State)
    requires Init(s)
    ensures Inv(s)
  {
  }

  /**
   * In every run: at most one body runs at a time, always on a handle nobody has closed; starts follow queue
   * order, a task's first right after a healthy ping, or a failed one and a successful reopening, and a second only
   * right after a reconnectable failure of the first and a successful reopening; a handle is replaced after a failed
   * ping and after a body outlived its timeout before any other body starts. Every task the worker took and finished,
   * or drained, has been given exactly one value, and a timed out one has it while its body is still running.
   */
  lemma WriterIsSafe(s: State, steps: seq<Step>)
    requires Init(s) && Valid(s, steps)
    ensures var r := Run(s, steps);
            && (forall a, b | a in r.bodies && b in r.bodies :: a == b)
            && (forall b | b in r.bodies :: b.handle !in r.closedHandles && r.handle == Some(b.handle))
            && LogOk(r.log)
            && (forall t: nat :: Values(r, t) <= 1)
            && (r.worker.Waiting? ==> Values(r, r.worker.task) == 1)
            && (forall t: nat | t < r.next - |r.queue| && !(Busy(r.worker) && r.worker.task == t) :: Values(r, t) == 1)
  {
    hide Do, Enabled, LogOk, QueueOk, WorkerFits;
    InitKeeps(s);
    RunKeeps(s, steps);
    var r := Run(s, steps);
    assert forall t: nat :: Values(r, t) == Expected(r, t);
    if r.worker.Waiting? {
      WaitingHasValue(r);
    }
  }

  lemma WaitingHasValue(s: State)
    requires QueueOk(s) && ValuesOk(s) && NotifiedOk(s) && s.worker.Waiting?
    ensures Values(s, s.worker.task) == 1
  {
    assert Values(s, s.worker.task) == Expected(s, s.worker.task);
  }

  /** The writer's own reconnect and close never take a handle from under a running body. */
  lemma ClosingFindsNoBody(s: State, step: Step)
    requires Inv(s) && Enabled(s, step) && (step.CloseHandle? || step.CloseStore?)
    ensures s.bodies == {}
  {
  }

  // ------------------------------------------------------------- what a value says

  /** The log shows that attempt of the task's body starting, and right after it ending with that result. */
  predicate BodySaid(log: seq<Event>, t: nat, k: nat, result: BodyResult) {
    exists i | 0 < i < |log| :: log[i - 1] == Started(t, k) && log[i] == Ended(t, k, result)
  }

  /** What the world did to task `t` that a value other than its body's result is due to. */
  predicate Causes(s: State, step: Step, t: nat, outcome: Outcome) {
    match outcome
    case OfBody(_, _) => step == TakeResult(false) && s.worker == Running(t, 1)
    case Cancelled => step == CheckStops && s.worker == Checking(t)
    case ReopenFailed => step == OpenHandle(false) && s.worker.Opening? && s.worker.task == t
    case StartFailed => step == StartFails && s.worker.Starting? && s.worker.task == t
    case TimedOut => step == TimeOut && s.worker.Running? && s.worker.task == t
    case Panicked => step == Panic && Busy(s.worker) && s.worker.task == t
    case Closed => step == DrainOne && s.worker == Draining && s.queue != [] && s.queue[0] == t
  }

  ghost predicate Happened(s: State, steps: seq<Step>, t: nat, outcome: Outcome) {
    exists n | 0 <= n < |steps| :: HappenedAt(s, steps, n, t, outcome)
  }

  ghost predicate HappenedAt(s: State, steps: seq<Step>, n: nat, t: nat, outcome: Outcome)
    requires n < |steps|
  {
    Valid(s, steps[..n]) && Causes(Run(s, steps[..n]), steps[n], t, outcome)
  }

  /**
   * A body's result was said by that body, and a reconnectable failure of a first attempt is final only if the caller
   * was gone by then; any other value was caused by what it names.
   */
  ghost predicate Due(s: State, steps: seq<Step>, log: seq<Event>, t: nat, outcome: Outcome) {
    match outcome
    case OfBody(k, result) => BodySaid(log, t, k, result) && (k == 1 && result == Failed(true) ==> Happened(s, steps, t, outcome))
    case _ => Happened(s, steps, t, outcome)
  }

  ghost predicate AllDue(s: State, steps: seq<Step>, r: State) {
    && (forall t: nat, o | o in Given(r, t) :: Due(s, steps, r.log, t, o))
    && (r.worker.Finishing? && !r.notified ==> Due(s, steps, r.log, r.worker.task, r.worker.outcome))
  }

  lemma {:induction false} RunAppends(s: State, steps: seq<Step>, step: Step)
    requires Valid(s, steps + [step])
    ensures Valid(s, steps) && Enabled(Run(s, steps), step) && Run(s, steps + [step]) == Do(Run(s, steps), step)
    decreases |steps|
  {
    hide Do, Enabled;
    var all := steps + [step];
    if steps == [] {
      assert all[1..] == [];
    } else {
      assert all[0] == steps[0] && all[1..] == steps[1..] + [step];
      RunAppends(Do(s, steps[0]), steps[1..], step);
    }
  }

  lemma HappenedGrows(s: State, steps: seq<Step>, step: Step, t: nat, o: Outcome)
    requires Happened(s, steps, t, o)
    ensures Happened(s, steps + [step], t, o)
  {
    hide Valid, Run, Causes;
    var n :| 0 <= n < |steps| && HappenedAt(s, steps, n, t, o);
    assert (steps + [step])[..n] == steps[..n];
    assert HappenedAt(s, steps + [step], n, t, o);
  }

  lemma HappensNow(s: State, steps: seq<Step>, step: Step, t: nat, o: Outcome)
    requires Valid(s, steps) && Causes(Run(s, steps), step, t, o)
    ensures Happened(s, steps + [step], t, o)
  {
    hide Valid, Run, Causes;
    assert (steps + [step])[..|steps|] == steps;
    assert HappenedAt(s, steps + [step], |steps|, t, o);
  }

  lemma SaidGrows(log: seq<Event>, more: seq<Event>, t: nat, k: nat, result: BodyResult)
    requires BodySaid(log, t, k, result)
    ensures BodySaid(log + more, t, k, result)
  {
    var i :| 0 < i < |log| && log[i - 1] == Started(t, k) && log[i] == Ended(t, k, result);
    assert (log + more)[i - 1] == log[i - 1] && (log + more)[i] == log[i];
  }

  lemma DueGrows(s: State, steps: seq<Step>, step: Step, log: seq<Event>, more: seq<Event>, t: nat, o: Outcome)
    requires Due(s, steps, log, t, o)
    ensures Due(s, steps + [step], log + more, t, o)
  {
    hide Happened, BodySaid;
    if o.OfBody? {
      SaidGrows(log, more, t, o.attempt, o.result);
    }
    if Happened(s, steps, t, o) {
      HappenedGrows(s, steps, step, t, o);
    }
  }

  /** The value a step gives, and to whom: the current task's at a timeout or the end, or a drained one's. */
  function NewValue(s: State, step: Step): Option<(nat, Outcome)>
    requires Enabled(s, step)
  {
    if step.TimeOut? && !s.notified then Some((s.worker.task, TimedOut))
    else if step.Finish? && !s.notified then Some((s.worker.task, s.worker.outcome))
    else if step.DrainOne? then Some((s.queue[0], Closed))
    else None
  }

  lemma GivesNewValue(s: State, step: Step, t: nat)
    requires Enabled(s, step) && (step.TimeOut? || step.Finish? || step.DrainOne?)
    ensures var given := NewValue(s, step);
            Given(Do(s, step), t) == Given(s, t) + if given.Some? && given.value.0 == t then [given.value.1] else []
  {
  }

  lemma StepGives(s: State, step: Step, t: nat)
    requires Enabled(s, step)
    ensures var given := NewValue(s, step);
            Given(Do(s, step), t) == Given(s, t) + if given.Some? && given.value.0 == t then [given.value.1] else []
  {
    if step.TimeOut? || step.Finish? || step.DrainOne? {
      GivesNewValue(s, step, t);
    } else {
      ValuesUnchanged(s, step);
    }
  }

  lemma ValuesUnchanged(s: State, step: Step)
    requires Enabled(s, step) && !step.TimeOut? && !step.Finish? && !step.DrainOne?
    ensures Do(s, step).values == s.values
  {
    hide AfterOpen, Given;
  }

  lemma LogGoesOn(s: State, step: Step)
    requires Enabled(s, step)
    ensures s.log <= Do(s, step).log
  {
    if !MovesLog(step) {
      LogAside(s, step);
    }
  }

  /** When a body's result is taken, the log ends with its start and its end. */
  lemma TakenWasSaid(s: State)
    requires Inv(s) && s.worker.Running? && s.ended.Some?
    ensures BodySaid(s.log, s.worker.task, s.worker.attempt, s.ended.value)
  {
    hide QueueOk, ValuesOk, NotifiedOk, BodiesOk;
    assert Follows(s.log, |s.log| - 1);
  }

  /** The outcome a step settles on for the current task. */
  lemma NewOutcomeIsDue(s: State, steps: seq<Step>, r: State, step: Step)
    requires Valid(s, steps) && r == Run(s, steps) && Inv(r) && Enabled(r, step)
    requires Do(r, step).worker.Finishing? && !Do(r, step).notified && !r.worker.Finishing?
    ensures Due(s, steps + [step], Do(r, step).log, Do(r, step).worker.task, Do(r, step).worker.outcome)
  {
    hide Valid, Run, Happened, LogOk, WorkerFits, QueueOk, ValuesOk, BodiesOk, BodySaid;
    var r' := Do(r, step);
    var t, o := r'.worker.task, r'.worker.outcome;
    if step.TakeResult? {
      TakenWasSaid(r);
      if o.attempt == 1 && o.result == Failed(true) {
        HappensNow(s, steps, step, t, o);
      }
    } else {
      HappensNow(s, steps, step, t, o);
    }
  }

  lemma ValuesStayDue(s: State, steps: seq<Step>, r: State, step: Step, t: nat, o: Outcome)
    requires Valid(s, steps) && r == Run(s, steps) && Enabled(r, step) && AllDue(s, steps, r) && o in Given(Do(r, step), t)
    ensures Due(s, steps + [step], Do(r, step).log, t, o)
  {
    hide Valid, Run, Happened, Do, Due, BodySaid;
    StepGives(r, step, t);
    LogGoesOn(r, step);
    var more := Do(r, step).log[|r.log|..];
    assert Do(r, step).log == r.log + more;
    if o in Given(r, t) {
      DueGrows(s, steps, step, r.log, more, t, o);
    } else if step.Finish? {
      DueGrows(s, steps, step, r.log, more, t, o);
    } else {
      HappensNow(s, steps, step, t, o);
      CausedIsDue(s, steps + [step], Do(r, step).log, t, o);
    }
  }

  lemma CausedIsDue(s: State, steps: seq<Step>, log: seq<Event>, t: nat, o: Outcome)
    requires Happened(s, steps, t, o) && !o.OfBody?
    ensures Due(s, steps, log, t, o)
  {
  }

  lemma StillFinishing(s: State, step: Step)
    requires Enabled(s, step) && s.worker.Finishing? && Do(s, step).worker.Finishing?
    ensures Do(s, step).worker == s.worker && Do(s, step).notified == s.notified
  {
  }

  lemma StepStaysDue(s: State, steps: seq<Step>, r: State, step: Step)
    requires Valid(s, steps) && r == Run(s, steps) && Inv(r) && Enabled(r, step) && AllDue(s, steps, r)
    ensures AllDue(s, steps + [step], Do(r, step))
  {
    hide Valid, Run, Do, Enabled, Due, Inv;
    var r' := Do(r, step);
    forall t: nat, o | o in Given(r', t) ensures Due(s, steps + [step], r'.log, t, o) {
      ValuesStayDue(s, steps, r, step, t, o);
    }
    if r'.worker.Finishing? && !r'.notified {
      if r.worker.Finishing? {
        StillFinishing(r, step);
        LogGoesOn(r, step);
        var more := r'.log[|r.log|..];
        assert r'.log == r.log + more;
        DueGrows(s, steps, step, r.log, more, r.worker.task, r.worker.outcome);
      } else {
        NewOutcomeIsDue(s, steps, r, step);
      }
    }
  }

  lemma NothingDue(s: State)
    requires Init(s)
    ensures AllDue(s, [], s)
  {
  }

  lemma {:induction false} RunIsDue(s: State, steps: seq<Step>)
    requires Init(s) && Valid(s, steps)
    ensures Inv(Run(s, steps)) && AllDue(s, steps, Run(s, steps))
    decreases |steps|
  {
    hide AllDue, Do, Enabled, Inv, Init;
    InitKeeps(s);
    RunKeeps(s, steps);
    if steps == [] {
      NothingDue(s);
    } else {
      var n := |steps| - 1;
      assert steps == steps[..n] + [steps[n]];
      RunAppends(s, steps[..n], steps[n]);
      RunIsDue(s, steps[..n]);
      StepStaysDue(s, steps[..n], Run(s, steps[..n]), steps[n]);
    }
  }

  /**
   * In every run each value a caller gets is due: the result of its body, which the log shows starting and ending with
   * just that; or a cancellation found before the ping, a failed reopening, a failed start, a timeout, a panic or the
   * closing of the store, which the run shows happening to that task.
   */
  lemma EveryValueIsDue(s: State, steps: seq<Step>, t: nat, outcome: Outcome)
    requires Init(s) && Valid(s, steps) && outcome in Given(Run(s, steps), t)
    ensures Due(s, steps, Run(s, steps).log, t, outcome)
  {
    hide Init, Do, Enabled, Due, Inv;
    RunIsDue(s, steps);
  }

  /**
   * In every run a task whose body was heard, and whose first attempt failed with a reconnectable error while its caller
   * was alive, got its second attempt, and its caller was told what that one said.
   */
  lemma RetryIsMade(s: State, steps: seq<Step>, t: nat, k: nat, result: BodyResult)
    requires Init(s) && Valid(s, steps) && OfBody(k, result) in Given(Run(s, steps), t)
    requires Ended(t, 1, Failed(true)) in Run(s, steps).log && !Happened(s, steps, t, OfBody(1, Failed(true)))
    ensures k == 2 && BodySaid(Run(s, steps).log, t, 2, result)
  {
    hide Init, Do, Enabled, Inv, Happened, Run, LogOk, BodySaid;
    RunIsDue(s, steps);
    var r := Run(s, steps);
    LogIsOk(r);
    assert Due(s, steps, r.log, t, OfBody(k, result));
    OneEnd(r.log, t, k, result);
  }

  lemma EndHasStart(log: seq<Event>, i: nat)
    requires LogOk(log) && i < |log| && log[i].Ended?
    ensures i >= 1 && log[i - 1] == Started(log[i].task, log[i].attempt) && log[i].attempt in {1, 2}
  {
    assert Follows(log, i) && Follows(log, i - 1);
  }

  lemma StartsApart(log: seq<Event>, i: nat, j: nat)
    requires LogOk(log) && i < j < |log| && log[i].Started? && log[j].Started?
    ensures log[i] != log[j]
  {
    assert Before(log[i], log[j]);
  }

  /** An attempt ends once, and there are at most two. */
  lemma OneEnd(log: seq<Event>, t: nat, k: nat, result: BodyResult)
    requires LogOk(log) && BodySaid(log, t, k, result) && Ended(t, 1, Failed(true)) in log
    ensures (k == 1 && result == Failed(true)) || k == 2
  {
    hide LogOk;
    var i :| 0 < i < |log| && log[i - 1] == Started(t, k) && log[i] == Ended(t, k, result);
    var j :| 0 <= j < |log| && log[j] == Ended(t, 1, Failed(true));
    EndHasStart(log, i);
    EndHasStart(log, j);
    if i < j {
      StartsApart(log, i - 1, j - 1);
    } else if j < i {
      StartsApart(log, j - 1, i - 1);
    }
  }

  lemma LogIsOk(s: State)
    requires Inv(s)
    ensures LogOk(s.log)
  {
  }
}
