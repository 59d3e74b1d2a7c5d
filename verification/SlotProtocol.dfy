/**
 The browser slot protocol of one SharedBrowserRuntime as a step machine.

 Every task runs on one event loop, so the code between two suspension points is one
 atomic step. A task is suspended in a `Phase`; an `Event` says which task resumes and
 how the operation it awaited ended (a `Signal`). The functions below are the code that
 then runs up to the next suspension. They see the shared runtime fields and the task's
 own record, together a `Turn`.

 Awaiting a semaphore or a lock that is free does not suspend; the machine still allows
 other tasks to run there, so it has every interleaving of the event loop and more.
 */
module SlotProtocol {
  import opened Wrappers

  type TaskId = nat

  // Who called ensure_browser_runtime: a page session taking its slot, a page session
  // reopening after a driver disconnect, or the public warm-up call.
  datatype Role = Entering | Retrying | Warming

  // How a task ended. CancelledInYield is a cancellation that arrived after
  // yield_slot_until_recycle_window gave the permit back.
  datatype Outcome = Completed | Failed | TimedOut | Cancelled | CancelledInYield

  datatype Phase =
    // acquire_context_slot
    | Waiting                                        // first semaphore acquire
    | YieldSleeping                                  // sleep in the yield loop
    | Reacquiring                                    // second acquire; the permit was given back
    // ensure_browser_runtime
    | LockWait(role: Role)
    | Recycling(role: Role, planned: bool)           // closing; planned: still connected when chosen
    | Launching(role: Role)
    | AbortingLaunch(role: Role)                     // closing after a failed launch
    // runtime_page and open_context_page
    | Preparing
    | OpeningContext(attempt: nat, on: nat)          // on: the identity of the attempt's browser
    | OpeningPage(attempt: nat, on: nat)
    | DiscardingContext(attempt: nat, on: nat, retryable: bool)
    | RetryLockWait(on: nat)                         // recycle_after_driver_disconnect
    | RetryClosing(on: nat)
    | InBody
    | Persisting
    | ClosingContext
    | CloseDeferred                                  // page left; its close task is still pending
    // SharedBrowserRuntime.close
    | CloserLockWait
    | CloserClosing
    | Done(outcome: Outcome)

  // How the awaited operation ended. `settled` matters in ClosingContext only: whether
  // the context's close task had finished when the cancellation arrived.
  datatype Signal =
    | Permit                        // the semaphore grants a permit
    | Lock                          // the runtime lock is granted
    | Finished
    | Raised(retryable: bool)        // an Exception; retryable: driver or page closed
    | Timeout
    | Cancel(settled: bool)

  // A task's phase and how often it took or gave a permit and moved the active count.
  datatype Task = Task(phase: Phase, acquired: nat, released: nat, raised: nat, lowered: nat)

  datatype Browser = Browser(id: nat, connected: bool)

  datatype Settings = Settings(maxContextsBeforeRecycle: int, maxLifetime: int)

  // The runtime's fields, the clock, and the identities handed out to browsers. `retired`
  // records the browsers whose planned recycle has begun.
  datatype Runtime = Runtime(
    settings: Settings,
    permits: nat,
    active: int,
    queued: int,
    contexts: nat,
    browser: Option<Browser>,
    launchedAt: int,
    lock: Option<TaskId>,
    now: int,
    nextBrowser: nat,
    retired: set<nat>)

  datatype Turn = Turn(rt: Runtime, task: Task)

  // ---- what a phase means ----

  predicate CountsActive(p: Phase) {
    match p
    case LockWait(Retrying) | Recycling(Retrying, _) | Launching(Retrying) | AbortingLaunch(Retrying) => true
    case Preparing | OpeningContext(_, _) | OpeningPage(_, _) | DiscardingContext(_, _, _) => true
    case RetryLockWait(_) | RetryClosing(_) | InBody | Persisting | ClosingContext | CloseDeferred => true
    case _ => false
  }

  predicate HoldsPermit(p: Phase) {
    match p
    case LockWait(Entering) | Recycling(Entering, _) | Launching(Entering) | AbortingLaunch(Entering) => true
    case _ => CountsActive(p)
  }

  predicate IsQueued(p: Phase) { p.Waiting? || p.YieldSleeping? || p.Reacquiring? }

  // A page session under way: in the queue, or with a permit.
  predicate IsSession(p: Phase) { IsQueued(p) || HoldsPermit(p) }

  // The browser an attempt to open a page runs on, or ran on when it failed.
  predicate HasAttempt(p: Phase) {
    p.OpeningContext? || p.OpeningPage? || p.DiscardingContext? || p.RetryLockWait? || p.RetryClosing?
  }

  predicate HoldsLock(p: Phase) {
    p.Recycling? || p.Launching? || p.AbortingLaunch? || p.RetryClosing? || p.CloserClosing?
  }

  // ---- counters and semaphore ----

  function WithPhase(w: Turn, p: Phase): Turn { w.(task := w.task.(phase := p)) }

  function Finish(w: Turn, o: Outcome): Turn { WithPhase(w, Done(o)) }

  function AcquirePermit(w: Turn): Turn
    requires w.rt.permits > 0
  {
    Turn(w.rt.(permits := w.rt.permits - 1), w.task.(acquired := w.task.acquired + 1))
  }

  function ReleasePermit(w: Turn): Turn {
    Turn(w.rt.(permits := w.rt.permits + 1), w.task.(released := w.task.released + 1))
  }

  function RaiseActive(w: Turn): Turn {
    Turn(w.rt.(active := Max0(w.rt.active + 1)), w.task.(raised := w.task.raised + 1))
  }

  function LowerActive(w: Turn): Turn {
    Turn(w.rt.(active := Max0(w.rt.active - 1)), w.task.(lowered := w.task.lowered + 1))
  }

  function UpdateQueue(w: Turn, delta: int): Turn { w.(rt := w.rt.(queued := Max0(w.rt.queued + delta))) }

  function ReleaseContextCapacity(w: Turn): Turn { ReleasePermit(LowerActive(w)) }

  // ---- recycle tests ----

  predicate ThresholdReached(r: Runtime) {
    r.settings.maxContextsBeforeRecycle > 0 && r.contexts >= r.settings.maxContextsBeforeRecycle
  }

  predicate LifetimeReached(r: Runtime) {
    r.settings.maxLifetime > 0 && r.launchedAt > 0 && r.now - r.launchedAt >= r.settings.maxLifetime
  }

  predicate ShouldRecycle(r: Runtime) {
    r.browser.Some? &&
    (!r.browser.value.connected || (r.active <= 0 && (ThresholdReached(r) || LifetimeReached(r))))
  }

  // ---- acquire_context_slot and yield_slot_until_recycle_window ----

  // The permit is in hand. `late`: the slot deadline has already passed.
  function SlotGranted(w: Turn, late: bool): Turn {
    if w.rt.browser.None? || !ThresholdReached(w.rt) || w.rt.active > 0 then LeaveQueue(w)
    else YieldLoop(ReleasePermit(w), late)
  }

  function YieldLoop(w: Turn, late: bool): Turn {
    if late then SlotTimedOut(w)
    else if w.rt.active > 0 && ThresholdReached(w.rt) then WithPhase(w, YieldSleeping)
    else WithPhase(w, Reacquiring)
  }

  // acquire_context_slot returns; runtime_page goes straight on to ensure the browser.
  function LeaveQueue(w: Turn): Turn { EnsureEntry(UpdateQueue(w, -1), Entering) }

  function SlotTimedOut(w: Turn): Turn { Finish(UpdateQueue(w, -1), TimedOut) }

  // The `except BaseException` arm: it releases whenever slot_acquired is set, and that
  // flag stays set after the yield has given the permit back.
  function SlotCancelled(w: Turn): Turn {
    var slotAcquired := !w.task.phase.Waiting?;
    if slotAcquired then Finish(UpdateQueue(ReleasePermit(w), -1), CancelledInYield)
    else Finish(UpdateQueue(w, -1), Cancelled)
  }

  // ---- ensure_browser_runtime ----

  function EnsureEntry(w: Turn, role: Role): Turn {
    if w.rt.browser.Some? && !ShouldRecycle(w.rt) then EnsureReturned(w, role)
    else WithPhase(w, LockWait(role))
  }

  function TakeLock(w: Turn, id: TaskId): Turn { w.(rt := w.rt.(lock := Some(id))) }

  function Unlock(w: Turn): Turn { w.(rt := w.rt.(lock := None)) }

  // End of close_browser_runtime_locked.
  function ClearBrowser(w: Turn): Turn { w.(rt := w.rt.(browser := None, launchedAt := 0)) }

  function EnsureLocked(w: Turn, role: Role): Turn {
    if ShouldRecycle(w.rt) then
      var b := w.rt.browser.value;
      var retired := if b.connected then w.rt.retired + {b.id} else w.rt.retired;
      WithPhase(w.(rt := w.rt.(retired := retired)), Recycling(role, b.connected))
    else AfterRecycle(w, role)
  }

  function AfterRecycle(w: Turn, role: Role): Turn {
    if w.rt.browser.Some? then EnsureReturned(Unlock(w), role)
    else WithPhase(w, Launching(role))
  }

  function Launched(w: Turn, role: Role): Turn {
    var r := w.rt.(browser := Some(Browser(w.rt.nextBrowser, true)), nextBrowser := w.rt.nextBrowser + 1,
                   launchedAt := w.rt.now, contexts := 0);
    EnsureReturned(Unlock(w.(rt := r)), role)
  }

  function EnsureReturned(w: Turn, role: Role): Turn {
    match role
    case Entering => Activate(w)
    case Retrying => BeginOpen(w, 1)
    case Warming => Finish(w, Completed)
  }

  function EnsureRaised(w: Turn, role: Role, o: Outcome): Turn {
    match role
    case Entering => Finish(ReleasePermit(w), o)
    case Retrying => LeavePage(w, o)
    case Warming => Finish(w, o)
  }

  // ---- runtime_page and open_context_page ----

  function Activate(w: Turn): Turn {
    var up := RaiseActive(w);
    if up.rt.browser.None? then Finish(ReleasePermit(LowerActive(up)), Failed)
    else WithPhase(up, Preparing)
  }

  function BeginOpen(w: Turn, attempt: nat): Turn {
    if w.rt.browser.None? then LeavePage(w, Failed) else WithPhase(w, OpeningContext(attempt, w.rt.browser.value.id))
  }

  function ContextOpened(w: Turn, attempt: nat, on: nat): Turn {
    WithPhase(w.(rt := w.rt.(contexts := w.rt.contexts + 1)), OpeningPage(attempt, on))
  }

  function OpenFailed(w: Turn, attempt: nat, on: nat, retryable: bool): Turn {
    if attempt >= 1 || !retryable then LeavePage(w, Failed) else WithPhase(w, RetryLockWait(on))
  }

  // The outer finally of runtime_page when the release was not deferred.
  function LeavePage(w: Turn, o: Outcome): Turn { Finish(ReleaseContextCapacity(w), o) }

  // ---- one resumption ----

  function ResumeSlot(w: Turn, s: Signal, late: bool): Turn
    requires IsQueued(w.task.phase)
  {
    match s
    case Permit =>
      if w.task.phase.YieldSleeping? || w.rt.permits == 0 then w
      else if w.task.phase.Waiting? then SlotGranted(AcquirePermit(w), late)
      else LeaveQueue(AcquirePermit(w))
    case Finished => if w.task.phase.YieldSleeping? then YieldLoop(w, late) else w
    case Timeout => if w.task.phase.YieldSleeping? then w else SlotTimedOut(w)
    case Cancel(_) => SlotCancelled(w)
    case _ => w
  }

  function ResumeEnsure(w: Turn, id: TaskId, s: Signal): Turn
    requires w.task.phase.LockWait? || w.task.phase.Recycling? || w.task.phase.Launching? ||
      w.task.phase.AbortingLaunch?
  {
    var role := w.task.phase.role;
    match (w.task.phase, s)
    case (LockWait(_), Lock) => if w.rt.lock.None? then EnsureLocked(TakeLock(w, id), role) else w
    case (LockWait(_), Cancel(_)) => EnsureRaised(w, role, Cancelled)
    case (Recycling(_, _), Finished) => AfterRecycle(ClearBrowser(w), role)
    case (Recycling(_, _), Cancel(_)) => EnsureRaised(Unlock(w), role, Cancelled)
    case (Launching(_), Finished) => Launched(w, role)
    case (Launching(_), Raised(_)) => WithPhase(w, AbortingLaunch(role))
    case (Launching(_), Cancel(_)) => EnsureRaised(Unlock(w), role, Cancelled)
    case (AbortingLaunch(_), Finished) => EnsureRaised(Unlock(ClearBrowser(w)), role, Failed)
    case (AbortingLaunch(_), Cancel(_)) => EnsureRaised(Unlock(w), role, Cancelled)
    case _ => w
  }

  function ResumePage(w: Turn, id: TaskId, s: Signal): Turn {
    match (w.task.phase, s)
    case (Preparing, Finished) => BeginOpen(w, 0)
    case (Preparing, Raised(_)) => LeavePage(w, Failed)
    case (Preparing, Cancel(_)) => LeavePage(w, Cancelled)
    case (OpeningContext(a, on), Finished) => ContextOpened(w, a, on)
    case (OpeningContext(a, on), Raised(retryable)) => OpenFailed(w, a, on, retryable)
    case (OpeningContext(_, _), Cancel(_)) => LeavePage(w, Cancelled)
    case (OpeningPage(_, _), Finished) => WithPhase(w, InBody)
    case (OpeningPage(a, on), Raised(retryable)) => WithPhase(w, DiscardingContext(a, on, retryable))
    case (OpeningPage(_, _), Cancel(_)) => LeavePage(w, Cancelled)
    case (DiscardingContext(a, on, retryable), Finished) => OpenFailed(w, a, on, retryable)
    case (DiscardingContext(_, _, _), Cancel(_)) => LeavePage(w, Cancelled)
    case (RetryLockWait(on), Lock) => if w.rt.lock.None? then WithPhase(TakeLock(w, id), RetryClosing(on)) else w
    case (RetryLockWait(_), Cancel(_)) => LeavePage(w, Cancelled)
    case (RetryClosing(_), Finished) => EnsureEntry(Unlock(ClearBrowser(w)), Retrying)
    case (RetryClosing(_), Cancel(_)) => LeavePage(Unlock(w), Cancelled)
    case (InBody, Finished) | (InBody, Raised(_)) | (InBody, Cancel(_)) => WithPhase(w, Persisting)
    case (Persisting, Finished) | (Persisting, Raised(_)) | (Persisting, Cancel(_)) => WithPhase(w, ClosingContext)
    case (ClosingContext, Finished) | (ClosingContext, Raised(_)) => LeavePage(w, Completed)
    case (ClosingContext, Timeout) => WithPhase(w, CloseDeferred)
    case (ClosingContext, Cancel(settled)) => if settled then LeavePage(w, Cancelled) else WithPhase(w, CloseDeferred)
    case (CloseDeferred, Finished) => LeavePage(w, Completed)
    case (CloserLockWait, Lock) => if w.rt.lock.None? then WithPhase(TakeLock(w, id), CloserClosing) else w
    case (CloserLockWait, Cancel(_)) => Finish(w, Cancelled)
    case (CloserClosing, Finished) => Finish(Unlock(ClearBrowser(w)), Completed)
    case (CloserClosing, Cancel(_)) => Finish(Unlock(w), Cancelled)
    case _ => w
  }

  function Resume(w: Turn, id: TaskId, s: Signal, late: bool): Turn {
    var p := w.task.phase;
    if IsQueued(p) then ResumeSlot(w, s, late)
    else if p.LockWait? || p.Recycling? || p.Launching? || p.AbortingLaunch? then ResumeEnsure(w, id, s)
    else ResumePage(w, id, s)
  }

  // ---- whole runs ----

  datatype Job = Page | WarmUp | Close

  function StartPhase(job: Job): Phase {
    match job
    case Page => Waiting
    case WarmUp => LockWait(Warming)
    case Close => CloserLockWait
  }

  function Start(r: Runtime, job: Job): Turn {
    var w := Turn(r, Task(StartPhase(job), 0, 0, 0, 0));
    match job
    case Page => UpdateQueue(w, 1)
    case WarmUp => EnsureEntry(w, Warming)
    case Close => w
  }

  datatype World = World(rt: Runtime, tasks: map<TaskId, Task>)

  datatype Event =
    | Spawn(id: TaskId, job: Job)
    | Wake(id: TaskId, signal: Signal, late: bool)
    | Tick(elapsed: nat)
    | Disconnect

  function Put(w: World, id: TaskId, v: Turn): World { World(v.rt, w.tasks[id := v.task]) }

  // An event that does not apply changes nothing.
  function Step(w: World, e: Event): World {
    match e
    case Spawn(id, job) => if id in w.tasks then w else Put(w, id, Start(w.rt, job))
    case Wake(id, s, late) =>
      if id in w.tasks then Put(w, id, Resume(Turn(w.rt, w.tasks[id]), id, s, late)) else w
    case Tick(elapsed) => w.(rt := w.rt.(now := w.rt.now + elapsed))
    case Disconnect =>
      if w.rt.browser.Some? then w.(rt := w.rt.(browser := Some(w.rt.browser.value.(connected := false)))) else w
  }

  function Run(w: World, events: seq<Event>): World
    decreases |events|
  {
    if events == [] then w else Run(Step(w, events[0]), events[1..])
  }

  function Init(maxContexts: nat, settings: Settings, now: int): World {
    World(Runtime(settings, maxContexts, 0, 0, 0, None, 0, None, now, 0, {}), map[])
  }
}
