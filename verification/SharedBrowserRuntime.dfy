/**
 The runtime object itself: its fields and the methods that change them, each proved to
 do what the step machine says. A method takes and returns the record of the task that
 runs it; `Wake` is the event loop resuming that task.
 */
module SharedBrowserRuntimes {
  import opened Wrappers
  import opened SlotProtocol

  class SharedBrowserRuntime {
    const settings: Settings
    var semaphore: nat
    var activeContexts: int
    var queuedCount: int
    var totalContextsCreated: nat
    var browser: Option<Browser>
    var browserLaunchedAt: int
    var lock: Option<TaskId>
    var now: int
    var nextBrowser: nat
    ghost var retired: set<nat>

    ghost function View(): Runtime
      reads this
    {
      Runtime(settings, semaphore, activeContexts, queuedCount, totalContextsCreated, browser, browserLaunchedAt,
              lock, now, nextBrowser, retired)
    }

    constructor (maxContexts: int, settings: Settings, now: int)
      ensures View() == Init(if maxContexts < 1 then 1 else maxContexts, settings, now).rt
    {
      this.settings := settings;
      semaphore := if maxContexts < 1 then 1 else maxContexts;
      activeContexts, queuedCount, totalContextsCreated := 0, 0, 0;
      browser, browserLaunchedAt, lock := None, 0, None;
      this.now, nextBrowser, retired := now, 0, {};
    }

    // ---- counters ----

    method UpdateActiveContexts(delta: int)
      modifies this`activeContexts
      ensures activeContexts == Max0(old(activeContexts) + delta)
    {
      activeContexts := Max0(activeContexts + delta);
    }

    method UpdateQueueCount(delta: int)
      modifies this`queuedCount
      ensures queuedCount == Max0(old(queuedCount) + delta)
    {
      queuedCount := Max0(queuedCount + delta);
    }

    method Release(t: Task) returns (v: Task)
      modifies this`semaphore
      ensures Turn(View(), v) == ReleasePermit(Turn(old(View()), t))
    {
      semaphore := semaphore + 1;
      v := t.(released := t.released + 1);
    }

    method ReleaseContextCapacity(t: Task) returns (v: Task)
      modifies this
      ensures Turn(View(), v) == SlotProtocol.ReleaseContextCapacity(Turn(old(View()), t))
    {
      UpdateActiveContexts(-1);
      v := Release(t.(lowered := t.lowered + 1));
    }

    // ---- recycle tests ----

    predicate ContextRecycleThresholdReached()
      reads this
      ensures ContextRecycleThresholdReached() == ThresholdReached(View())
    {
      settings.maxContextsBeforeRecycle > 0 && totalContextsCreated >= settings.maxContextsBeforeRecycle
    }

    method ShouldRecycleBrowser() returns (r: bool)
      ensures r == ShouldRecycle(View())
    {
      if browser.None? { return false; }
      if !browser.value.connected { return true; }
      if activeContexts > 0 { return false; }
      if ContextRecycleThresholdReached() { return true; }
      if settings.maxLifetime > 0 && browserLaunchedAt > 0 {
        if now - browserLaunchedAt >= settings.maxLifetime { return true; }
      }
      return false;
    }

    // ---- acquire_context_slot ----

    method AcquireContextSlot() returns (v: Task)
      modifies this
      ensures Turn(View(), v) == Start(old(View()), Page)
    {
      UpdateQueueCount(1);
      v := Task(Waiting, 0, 0, 0, 0);
    }

    method YieldSlotUntilRecycleWindow(t: Task, late: bool) returns (v: Task)
      modifies this
      ensures Turn(View(), v) == SlotGranted(Turn(old(View()), t), late)
    {
      if browser.None? || !ContextRecycleThresholdReached() || activeContexts > 0 {
        v := LeaveQueue(t);
      } else {
        v := Release(t);
        v := YieldLoop(v, late);
      }
    }

    method YieldLoop(t: Task, late: bool) returns (v: Task)
      modifies this
      ensures Turn(View(), v) == SlotProtocol.YieldLoop(Turn(old(View()), t), late)
    {
      if late {
        v := SlotTimedOut(t);
      } else if activeContexts > 0 && ContextRecycleThresholdReached() {
        v := t.(phase := YieldSleeping);
      } else {
        v := t.(phase := Reacquiring);
      }
    }

    method LeaveQueue(t: Task) returns (v: Task)
      modifies this
      ensures Turn(View(), v) == SlotProtocol.LeaveQueue(Turn(old(View()), t))
    {
      UpdateQueueCount(-1);
      v := EnsureBrowserRuntime(t, Entering);
    }

    method SlotTimedOut(t: Task) returns (v: Task)
      modifies this
      ensures Turn(View(), v) == SlotProtocol.SlotTimedOut(Turn(old(View()), t))
    {
      UpdateQueueCount(-1);
      v := t.(phase := Done(TimedOut));
    }

    method SlotCancelled(t: Task) returns (v: Task)
      modifies this
      ensures Turn(View(), v) == SlotProtocol.SlotCancelled(Turn(old(View()), t))
    {
      v := t;
      var outcome := Cancelled;
      var slotAcquired := !t.phase.Waiting?;
      if slotAcquired {
        v := Release(v);
        outcome := CancelledInYield;
      }
      UpdateQueueCount(-1);
      v := v.(phase := Done(outcome));
    }

    // ---- ensure_browser_runtime ----

    method EnsureBrowserRuntime(t: Task, role: Role) returns (v: Task)
      modifies this
      ensures Turn(View(), v) == EnsureEntry(Turn(old(View()), t), role)
    {
      var due := ShouldRecycleBrowser();
      if browser.Some? && !due {
        v := EnsureReturned(t, role);
      } else {
        v := t.(phase := LockWait(role));
      }
    }

    method EnsureLocked(t: Task, id: TaskId, role: Role) returns (v: Task)
      modifies this
      ensures Turn(View(), v) == SlotProtocol.EnsureLocked(TakeLock(Turn(old(View()), t), id), role)
    {
      lock := Some(id);
      var due := ShouldRecycleBrowser();
      if due {
        if browser.value.connected {
          retired := retired + {browser.value.id};
        }
        v := t.(phase := Recycling(role, browser.value.connected));
      } else {
        v := AfterRecycle(t, role);
      }
    }

    method AfterRecycle(t: Task, role: Role) returns (v: Task)
      modifies this
      ensures Turn(View(), v) == SlotProtocol.AfterRecycle(Turn(old(View()), t), role)
    {
      if browser.Some? {
        lock := None;
        v := EnsureReturned(t, role);
      } else {
        v := t.(phase := Launching(role));
      }
    }

    method Launched(t: Task, role: Role) returns (v: Task)
      modifies this
      ensures Turn(View(), v) == SlotProtocol.Launched(Turn(old(View()), t), role)
    {
      browser := Some(Browser(nextBrowser, true));
      nextBrowser := nextBrowser + 1;
      browserLaunchedAt := now;
      totalContextsCreated := 0;
      lock := None;
      v := EnsureReturned(t, role);
    }

    method CloseBrowserRuntimeLocked()
      modifies this`browser, this`browserLaunchedAt
      ensures browser == None && browserLaunchedAt == 0
    {
      browser := None;
      browserLaunchedAt := 0;
    }

    method EnsureReturned(t: Task, role: Role) returns (v: Task)
      modifies this
      ensures Turn(View(), v) == SlotProtocol.EnsureReturned(Turn(old(View()), t), role)
    {
      match role
      case Entering => v := Activate(t);
      case Retrying => v := BeginOpen(t, 1);
      case Warming => v := t.(phase := Done(Completed));
    }

    method EnsureRaised(t: Task, role: Role, o: Outcome) returns (v: Task)
      modifies this
      ensures Turn(View(), v) == SlotProtocol.EnsureRaised(Turn(old(View()), t), role, o)
    {
      match role
      case Entering => v := Release(t); v := v.(phase := Done(o));
      case Retrying => v := LeavePage(t, o);
      case Warming => v := t.(phase := Done(o));
    }

    // ---- runtime_page and open_context_page ----

    method Activate(t: Task) returns (v: Task)
      modifies this
      ensures Turn(View(), v) == SlotProtocol.Activate(Turn(old(View()), t))
    {
      UpdateActiveContexts(1);
      v := t.(raised := t.raised + 1);
      if browser.None? {
        UpdateActiveContexts(-1);
        v := Release(v.(lowered := v.lowered + 1));
        v := v.(phase := Done(Failed));
      } else {
        v := v.(phase := Preparing);
      }
    }

    method BeginOpen(t: Task, attempt: nat) returns (v: Task)
      modifies this
      ensures Turn(View(), v) == SlotProtocol.BeginOpen(Turn(old(View()), t), attempt)
    {
      if browser.None? {
        v := LeavePage(t, Failed);
      } else {
        v := t.(phase := OpeningContext(attempt, browser.value.id));
      }
    }

    method OpenFailed(t: Task, attempt: nat, on: nat, retryable: bool) returns (v: Task)
      modifies this
      ensures Turn(View(), v) == SlotProtocol.OpenFailed(Turn(old(View()), t), attempt, on, retryable)
    {
      if attempt >= 1 || !retryable {
        v := LeavePage(t, Failed);
      } else {
        v := t.(phase := RetryLockWait(on));
      }
    }

    method LeavePage(t: Task, o: Outcome) returns (v: Task)
      modifies this
      ensures Turn(View(), v) == SlotProtocol.LeavePage(Turn(old(View()), t), o)
    {
      v := ReleaseContextCapacity(t);
      v := v.(phase := Done(o));
    }

    // ---- the event loop starts and resumes tasks ----

    method Begin(job: Job) returns (v: Task)
      modifies this
      ensures Turn(View(), v) == Start(old(View()), job)
    {
      v := Task(StartPhase(job), 0, 0, 0, 0);
      match job
      case Page => v := AcquireContextSlot();
      case WarmUp => v := EnsureBrowserRuntime(v, Warming);
      case Close =>
    }

    method Elapse(elapsed: nat)
      modifies this`now
      ensures View() == old(View()).(now := old(now) + elapsed)
    {
      now := now + elapsed;
    }

    // The driver drops the connection.
    method LoseConnection()
      modifies this`browser
      ensures var was := old(View());
        View() == if was.browser.Some? then was.(browser := Some(was.browser.value.(connected := false))) else was
    {
      if browser.Some? { browser := Some(browser.value.(connected := false)); }
    }

    method Wake(t: Task, id: TaskId, s: Signal, late: bool) returns (v: Task)
      modifies this
      ensures Turn(View(), v) == Resume(Turn(old(View()), t), id, s, late)
    {
      if IsQueued(t.phase) {
        v := WakeSlot(t, s, late);
      } else if t.phase.LockWait? || t.phase.Recycling? || t.phase.Launching? || t.phase.AbortingLaunch? {
        v := WakeEnsure(t, id, s);
      } else if t.phase.Preparing? || t.phase.OpeningContext? || t.phase.OpeningPage? || t.phase.DiscardingContext? {
        v := WakeOpening(t, id, s);
      } else {
        v := WakeClosing(t, id, s);
      }
    }

    method WakeSlot(t: Task, s: Signal, late: bool) returns (v: Task)
      requires IsQueued(t.phase)
      modifies this
      ensures Turn(View(), v) == ResumeSlot(Turn(old(View()), t), s, late)
    {
      v := t;
      match s
      case Permit =>
        if !t.phase.YieldSleeping? && semaphore > 0 {
          semaphore := semaphore - 1;
          v := t.(acquired := t.acquired + 1);
          if t.phase.Waiting? {
            v := YieldSlotUntilRecycleWindow(v, late);
          } else {
            v := LeaveQueue(v);
          }
        }
      case Finished => if t.phase.YieldSleeping? { v := YieldLoop(t, late); }
      case Timeout => if !t.phase.YieldSleeping? { v := SlotTimedOut(t); }
      case Cancel(_) => v := SlotCancelled(t);
      case _ =>
    }

    method WakeEnsure(t: Task, id: TaskId, s: Signal) returns (v: Task)
      requires t.phase.LockWait? || t.phase.Recycling? || t.phase.Launching? || t.phase.AbortingLaunch?
      modifies this
      ensures Turn(View(), v) == ResumeEnsure(Turn(old(View()), t), id, s)
    {
      v := t;
      var role := t.phase.role;
      if t.phase.LockWait? {
        if s.Lock? && lock.None? {
          v := EnsureLocked(t, id, role);
        } else if s.Cancel? {
          v := EnsureRaised(t, role, Cancelled);
        }
      } else if s.Cancel? {
        lock := None;
        v := EnsureRaised(t, role, Cancelled);
      } else if t.phase.Recycling? && s.Finished? {
        CloseBrowserRuntimeLocked();
        v := AfterRecycle(t, role);
      } else if t.phase.Launching? && s.Finished? {
        v := Launched(t, role);
      } else if t.phase.Launching? && s.Raised? {
        v := t.(phase := AbortingLaunch(role));
      } else if t.phase.AbortingLaunch? && s.Finished? {
        CloseBrowserRuntimeLocked();
        lock := None;
        v := EnsureRaised(t, role, Failed);
      }
    }

    method WakeOpening(t: Task, id: TaskId, s: Signal) returns (v: Task)
      requires t.phase.Preparing? || t.phase.OpeningContext? || t.phase.OpeningPage? || t.phase.DiscardingContext?
      modifies this
      ensures Turn(View(), v) == ResumePage(Turn(old(View()), t), id, s)
    {
      v := t;
      if s.Cancel? {
        v := LeavePage(t, Cancelled);
      } else {
        match (t.phase, s)
        case (Preparing, Finished) => v := BeginOpen(t, 0);
        case (Preparing, Raised(_)) => v := LeavePage(t, Failed);
        case (OpeningContext(a, on), Finished) =>
          totalContextsCreated := totalContextsCreated + 1;
          v := t.(phase := OpeningPage(a, on));
        case (OpeningContext(a, on), Raised(retryable)) => v := OpenFailed(t, a, on, retryable);
        case (OpeningPage(_, _), Finished) => v := t.(phase := InBody);
        case (OpeningPage(a, on), Raised(retryable)) => v := t.(phase := DiscardingContext(a, on, retryable));
        case (DiscardingContext(a, on, retryable), Finished) => v := OpenFailed(t, a, on, retryable);
        case _ =>
      }
    }

    method WakeClosing(t: Task, id: TaskId, s: Signal) returns (v: Task)
      requires !IsQueued(t.phase) && !t.phase.LockWait? && !t.phase.Recycling? && !t.phase.Launching?
      requires !t.phase.AbortingLaunch? && !t.phase.Preparing? && !t.phase.OpeningContext? && !t.phase.OpeningPage?
      requires !t.phase.DiscardingContext?
      modifies this
      ensures Turn(View(), v) == ResumePage(Turn(old(View()), t), id, s)
    {
      v := t;
      match (t.phase, s)
      case (RetryLockWait(on), Lock) => if lock.None? { lock := Some(id); v := t.(phase := RetryClosing(on)); }
      case (RetryLockWait(_), Cancel(_)) => v := LeavePage(t, Cancelled);
      case (RetryClosing(_), Finished) =>
        CloseBrowserRuntimeLocked();
        lock := None;
        v := EnsureBrowserRuntime(t, Retrying);
      case (RetryClosing(_), Cancel(_)) => lock := None; v := LeavePage(t, Cancelled);
      case (InBody, Finished) | (InBody, Raised(_)) | (InBody, Cancel(_)) => v := t.(phase := Persisting);
      case (Persisting, Finished) | (Persisting, Raised(_)) | (Persisting, Cancel(_)) =>
        v := t.(phase := ClosingContext);
      case (ClosingContext, Finished) | (ClosingContext, Raised(_)) => v := LeavePage(t, Completed);
      case (ClosingContext, Timeout) => v := t.(phase := CloseDeferred);
      case (ClosingContext, Cancel(settled)) =>
        if settled { v := LeavePage(t, Cancelled); } else { v := t.(phase := CloseDeferred); }
      case (CloseDeferred, Finished) => v := LeavePage(t, Completed);
      case (CloserLockWait, Lock) => if lock.None? { lock := Some(id); v := t.(phase := CloserClosing); }
      case (CloserLockWait, Cancel(_)) => v := t.(phase := Done(Cancelled));
      case (CloserClosing, Finished) =>
        CloseBrowserRuntimeLocked();
        lock := None;
        v := t.(phase := Done(Completed));
      case (CloserClosing, Cancel(_)) => lock := None; v := t.(phase := Done(Cancelled));
      case _ =>
    }
  }
}
