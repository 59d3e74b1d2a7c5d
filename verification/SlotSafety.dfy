/**
 What every interleaving of page sessions, warm-ups and closes keeps: permits and
 counters are conserved, the runtime lock excludes, and a planned recycle never meets a
 live page.
 */
module SlotSafety {
  import opened Wrappers
  import opened SlotProtocol

  // ---- counting tasks ----

  datatype Kind = Holding | Live | InQueue | Overdrawn

  predicate Is(k: Kind, p: Phase) {
    match k
    case Holding => HoldsPermit(p)
    case Live => CountsActive(p)
    case InQueue => IsQueued(p)
    case Overdrawn => p == Done(CancelledInYield)
  }

  function Members(tasks: map<TaskId, Task>, k: Kind): set<TaskId> {
    set id | id in tasks && Is(k, tasks[id].phase)
  }

  function Count(tasks: map<TaskId, Task>, k: Kind): nat { |Members(tasks, k)| }

  lemma MembersPut(tasks: map<TaskId, Task>, id: TaskId, task: Task, k: Kind)
    ensures Members(tasks[id := task], k)
         == if Is(k, task.phase) then Members(tasks, k) + {id} else Members(tasks, k) - {id}
  {
  }

  lemma CountPut(tasks: map<TaskId, Task>, id: TaskId, task: Task, k: Kind)
    ensures Count(tasks[id := task], k)
         == Count(tasks, k) - B(id in tasks && Is(k, tasks[id].phase)) + B(Is(k, task.phase))
    ensures id in tasks && Is(k, tasks[id].phase) ==> Count(tasks, k) >= 1
  {
    MembersPut(tasks, id, task, k);
    Resize(Members(tasks, k), id);
  }

  lemma Resize(s: set<TaskId>, id: TaskId)
    ensures |s + {id}| == |s| + 1 - B(id in s) && |s - {id}| == |s| - B(id in s)
  {
    assert id in s ==> s + {id} == s && s == (s - {id}) + {id};
    assert id !in s ==> s - {id} == s;
  }

  // ---- one task's turn ----

  // The task's own ledger agrees with its phase.
  predicate Settled(t: Task) {
    && t.acquired + B(t.phase == Done(CancelledInYield)) == t.released + B(HoldsPermit(t.phase))
    && t.raised == t.lowered + B(CountsActive(t.phase))
    && t.raised <= 1
    && (!CountsActive(t.phase) && !t.phase.Done? ==> t.raised == 0)
    && !t.phase.YieldSleeping?
  }

  // The browser identities: the current one was handed out last, and once its planned recycle
  // has begun no page is live on it and it stays due for recycling.
  predicate BrowserSafe(r: Runtime) {
    && (r.browser.Some? ==> r.browser.value.id + 1 == r.nextBrowser)
    && (forall b :: b in r.retired ==> b < r.nextBrowser)
    && (r.browser.Some? && r.browser.value.id in r.retired ==> r.active == 0 && ShouldRecycle(r))
  }

  // The browser field while `p` has the lock.
  predicate LockedWell(r: Runtime, p: Phase) {
    && (p.Launching? || p.AbortingLaunch? ==> r.browser.None?)
    && (p.Recycling? ==> r.browser.Some?)
    && (p.Recycling? && p.planned ==> r.browser.value.id in r.retired)
    && (p.Recycling? && !p.planned ==> !r.browser.value.connected)
  }

  // Attempts run on browsers that were handed out.
  predicate AttemptKnown(r: Runtime, p: Phase) { HasAttempt(p) ==> p.on < r.nextBrowser }

  predicate TurnOk(w: Turn, id: TaskId) {
    && Settled(w.task)
    && BrowserSafe(w.rt)
    && LockedWell(w.rt, w.task.phase)
    && (HoldsLock(w.task.phase) <==> w.rt.lock == Some(id))
    && AttemptKnown(w.rt, w.task.phase)
    && w.rt.active >= B(CountsActive(w.task.phase))
    && w.rt.queued >= B(IsQueued(w.task.phase))
  }

  // What a task has in hand in the middle of its turn.
  datatype Carry = Carry(permit: bool, live: bool, queued: bool, locked: bool)

  function CarryOf(p: Phase): Carry { Carry(HoldsPermit(p), CountsActive(p), IsQueued(p), HoldsLock(p)) }

  predicate Mid(w: Turn, id: TaskId, c: Carry) {
    && w.task.acquired == w.task.released + B(c.permit)
    && w.task.raised == w.task.lowered + B(c.live)
    && w.task.raised == B(c.live)
    && BrowserSafe(w.rt)
    && (c.locked <==> w.rt.lock == Some(id))
    && w.rt.active >= B(c.live)
    && w.rt.queued >= B(c.queued)
  }

  // From a midpoint with `c` in hand the turn ends in `v`, and the shared counters moved
  // by exactly what the task no longer has, or newly has, in hand.
  predicate Lands(r: Runtime, id: TaskId, c: Carry, v: Turn) {
    && TurnOk(v, id)
    && v.rt.permits + B(HoldsPermit(v.task.phase)) == r.permits + B(c.permit) + B(Is(Overdrawn, v.task.phase))
    && v.rt.active + B(c.live) == r.active + B(CountsActive(v.task.phase))
    && v.rt.queued + B(c.queued) == r.queued + B(IsQueued(v.task.phase))
  }

  const NOTHING := Carry(false, false, false, false)
  const PAGE := Carry(true, true, false, false)

  function RoleCarry(role: Role, locked: bool): Carry {
    Carry(!role.Warming?, role.Retrying?, false, locked)
  }

  lemma LeavePageLands(w: Turn, id: TaskId, o: Outcome)
    requires Mid(w, id, PAGE) && o != CancelledInYield
    ensures Lands(w.rt, id, PAGE, LeavePage(w, o))
  {
  }

  lemma EnsureReturnedLands(w: Turn, id: TaskId, role: Role)
    requires Mid(w, id, RoleCarry(role, false))
    requires w.rt.browser.Some? && w.rt.browser.value.id !in w.rt.retired
    ensures Lands(w.rt, id, RoleCarry(role, false), EnsureReturned(w, role))
  {
  }

  lemma EnsureRaisedLands(w: Turn, id: TaskId, role: Role, o: Outcome)
    requires Mid(w, id, RoleCarry(role, false)) && o != CancelledInYield
    ensures Lands(w.rt, id, RoleCarry(role, false), EnsureRaised(w, role, o))
  {
  }

  lemma EnsureEntryLands(w: Turn, id: TaskId, role: Role)
    requires Mid(w, id, RoleCarry(role, false))
    ensures Lands(w.rt, id, RoleCarry(role, false), EnsureEntry(w, role))
  {
    if w.rt.browser.Some? && !ShouldRecycle(w.rt) {
      EnsureReturnedLands(w, id, role);
    }
  }

  lemma AfterRecycleLands(w: Turn, id: TaskId, role: Role)
    requires Mid(w, id, RoleCarry(role, true))
    requires w.rt.browser.Some? ==> w.rt.browser.value.id !in w.rt.retired
    ensures Lands(w.rt, id, RoleCarry(role, true), AfterRecycle(w, role))
  {
    if w.rt.browser.Some? {
      EnsureReturnedLands(Unlock(w), id, role);
    }
  }

  lemma EnsureLockedLands(w: Turn, id: TaskId, role: Role)
    requires Mid(w, id, RoleCarry(role, true))
    ensures Lands(w.rt, id, RoleCarry(role, true), EnsureLocked(w, role))
  {
    if !ShouldRecycle(w.rt) {
      AfterRecycleLands(w, id, role);
    }
  }

  lemma LaunchedLands(w: Turn, id: TaskId, role: Role)
    requires Mid(w, id, RoleCarry(role, true)) && w.rt.browser.None?
    ensures Lands(w.rt, id, RoleCarry(role, true), Launched(w, role))
  {
    var r := w.rt.(browser := Some(Browser(w.rt.nextBrowser, true)), nextBrowser := w.rt.nextBrowser + 1,
                   launchedAt := w.rt.now, contexts := 0, lock := None);
    EnsureReturnedLands(w.(rt := r), id, role);
  }

  // ---- every resumption ----

  lemma SlotIsSafe(w: Turn, id: TaskId, s: Signal, late: bool)
    requires TurnOk(w, id) && IsQueued(w.task.phase)
    ensures Lands(w.rt, id, CarryOf(w.task.phase), ResumeSlot(w, s, late))
  {
    if s.Permit? && w.rt.permits > 0 {
      var a := AcquirePermit(w);
      if w.task.phase.Waiting? {
        SlotGrantedLands(a, id, late);
      } else {
        LeaveQueueLands(a, id);
      }
    }
  }

  const QUEUED_SLOT := Carry(true, false, true, false)

  lemma LeaveQueueLands(w: Turn, id: TaskId)
    requires Mid(w, id, QUEUED_SLOT)
    ensures Lands(w.rt, id, QUEUED_SLOT, LeaveQueue(w))
  {
    EnsureEntryLands(UpdateQueue(w, -1), id, Entering);
  }

  lemma SlotGrantedLands(w: Turn, id: TaskId, late: bool)
    requires Mid(w, id, QUEUED_SLOT)
    ensures Lands(w.rt, id, QUEUED_SLOT, SlotGranted(w, late))
  {
    if w.rt.browser.None? || !ThresholdReached(w.rt) || w.rt.active > 0 {
      LeaveQueueLands(w, id);
    }
  }

  lemma EnsureIsSafe(w: Turn, id: TaskId, s: Signal)
    requires TurnOk(w, id)
    requires w.task.phase.LockWait? || w.task.phase.Recycling? || w.task.phase.Launching? ||
      w.task.phase.AbortingLaunch?
    ensures Lands(w.rt, id, CarryOf(w.task.phase), ResumeEnsure(w, id, s))
  {
    match w.task.phase
    case LockWait(_) => LockWaitIsSafe(w, id, s);
    case Recycling(_, _) => RecyclingIsSafe(w, id, s);
    case Launching(_) => LaunchingIsSafe(w, id, s);
    case AbortingLaunch(_) => AbortingIsSafe(w, id, s);
  }

  lemma LockWaitIsSafe(w: Turn, id: TaskId, s: Signal)
    requires TurnOk(w, id) && w.task.phase.LockWait?
    ensures Lands(w.rt, id, CarryOf(w.task.phase), ResumeEnsure(w, id, s))
  {
    var role := w.task.phase.role;
    if s.Lock? && w.rt.lock.None? {
      EnsureLockedLands(TakeLock(w, id), id, role);
    } else if s.Cancel? {
      EnsureRaisedLands(w, id, role, Cancelled);
    }
  }

  lemma RecyclingIsSafe(w: Turn, id: TaskId, s: Signal)
    requires TurnOk(w, id) && w.task.phase.Recycling?
    ensures Lands(w.rt, id, CarryOf(w.task.phase), ResumeEnsure(w, id, s))
  {
    var role := w.task.phase.role;
    if s.Finished? {
      AfterRecycleLands(ClearBrowser(w), id, role);
    } else if s.Cancel? {
      EnsureRaisedLands(Unlock(w), id, role, Cancelled);
    }
  }

  lemma LaunchingIsSafe(w: Turn, id: TaskId, s: Signal)
    requires TurnOk(w, id) && w.task.phase.Launching?
    ensures Lands(w.rt, id, CarryOf(w.task.phase), ResumeEnsure(w, id, s))
  {
    var role := w.task.phase.role;
    if s.Finished? {
      LaunchedLands(w, id, role);
    } else if s.Cancel? {
      EnsureRaisedLands(Unlock(w), id, role, Cancelled);
    }
  }

  lemma AbortingIsSafe(w: Turn, id: TaskId, s: Signal)
    requires TurnOk(w, id) && w.task.phase.AbortingLaunch?
    ensures Lands(w.rt, id, CarryOf(w.task.phase), ResumeEnsure(w, id, s))
  {
    var role := w.task.phase.role;
    if s.Finished? {
      EnsureRaisedLands(Unlock(ClearBrowser(w)), id, role, Failed);
    } else if s.Cancel? {
      EnsureRaisedLands(Unlock(w), id, role, Cancelled);
    }
  }

  predicate PagePhase(p: Phase) {
    !IsQueued(p) && !p.LockWait? && !p.Recycling? && !p.Launching? && !p.AbortingLaunch?
  }

  lemma PageIsSafe(w: Turn, id: TaskId, s: Signal)
    requires TurnOk(w, id) && PagePhase(w.task.phase) && !w.task.phase.Done?
    ensures Lands(w.rt, id, CarryOf(w.task.phase), ResumePage(w, id, s))
  {
    match w.task.phase
    case OpeningContext(_, _) | OpeningPage(_, _) | DiscardingContext(_, _, _) | Preparing => OpeningIsSafe(w, id, s);
    case RetryLockWait(_) | RetryClosing(_) => RetryIsSafe(w, id, s);
    case CloserLockWait | CloserClosing => CloserIsSafe(w, id, s);
    case _ => ClosingIsSafe(w, id, s);
  }

  lemma BeginOpenLands(w: Turn, id: TaskId, attempt: nat)
    requires Mid(w, id, PAGE)
    ensures Lands(w.rt, id, PAGE, BeginOpen(w, attempt))
  {
    LeavePageLands(w, id, Failed);
  }

  lemma OpenFailedLands(w: Turn, id: TaskId, attempt: nat, on: nat, retryable: bool)
    requires Mid(w, id, PAGE) && on < w.rt.nextBrowser
    ensures Lands(w.rt, id, PAGE, OpenFailed(w, attempt, on, retryable))
  {
    LeavePageLands(w, id, Failed);
  }

  lemma OpeningIsSafe(w: Turn, id: TaskId, s: Signal)
    requires TurnOk(w, id)
    requires w.task.phase.Preparing? || w.task.phase.OpeningContext? || w.task.phase.OpeningPage? ||
      w.task.phase.DiscardingContext?
    ensures Lands(w.rt, id, CarryOf(w.task.phase), ResumePage(w, id, s))
  {
    if s.Cancel? {
      LeavePageLands(w, id, Cancelled);
    } else {
      OpeningGoesOn(w, id, s);
    }
  }

  lemma OpeningGoesOn(w: Turn, id: TaskId, s: Signal)
    requires TurnOk(w, id) && !s.Cancel?
    requires w.task.phase.Preparing? || w.task.phase.OpeningContext? || w.task.phase.OpeningPage? ||
      w.task.phase.DiscardingContext?
    ensures Lands(w.rt, id, CarryOf(w.task.phase), ResumePage(w, id, s))
  {
    match (w.task.phase, s)
    case (Preparing, Finished) => BeginOpenLands(w, id, 0);
    case (Preparing, Raised(_)) => LeavePageLands(w, id, Failed);
    case (OpeningContext(a, on), Raised(retryable)) => OpenFailedLands(w, id, a, on, retryable);
    case (DiscardingContext(a, on, retryable), Finished) => OpenFailedLands(w, id, a, on, retryable);
    case _ =>
  }

  lemma RetryIsSafe(w: Turn, id: TaskId, s: Signal)
    requires TurnOk(w, id) && (w.task.phase.RetryLockWait? || w.task.phase.RetryClosing?)
    ensures Lands(w.rt, id, CarryOf(w.task.phase), ResumePage(w, id, s))
  {
    match (w.task.phase, s)
    case (RetryLockWait(_), Cancel(_)) => LeavePageLands(w, id, Cancelled);
    case (RetryClosing(_), Finished) => EnsureEntryLands(Unlock(ClearBrowser(w)), id, Retrying);
    case (RetryClosing(_), Cancel(_)) => LeavePageLands(Unlock(w), id, Cancelled);
    case _ =>
  }

  lemma ClosingIsSafe(w: Turn, id: TaskId, s: Signal)
    requires TurnOk(w, id)
    requires w.task.phase.InBody? || w.task.phase.Persisting? || w.task.phase.ClosingContext? ||
      w.task.phase.CloseDeferred?
    ensures Lands(w.rt, id, CarryOf(w.task.phase), ResumePage(w, id, s))
  {
    match w.task.phase
    case InBody => MoveLands(w, id, Persisting);
    case Persisting => MoveLands(w, id, ClosingContext);
    case _ =>
      MoveLands(w, id, CloseDeferred);
      LeavePageLands(w, id, if s.Cancel? then Cancelled else Completed);
  }

  lemma MoveLands(w: Turn, id: TaskId, p: Phase)
    requires TurnOk(w, id) && Mid(w, id, PAGE)
    requires p.Persisting? || p.ClosingContext? || p.CloseDeferred?
    ensures Lands(w.rt, id, PAGE, WithPhase(w, p))
  {
  }

  lemma CloserIsSafe(w: Turn, id: TaskId, s: Signal)
    requires TurnOk(w, id) && (w.task.phase.CloserLockWait? || w.task.phase.CloserClosing?)
    ensures Lands(w.rt, id, CarryOf(w.task.phase), ResumePage(w, id, s))
  {
  }

  lemma ResumeLands(w: Turn, id: TaskId, s: Signal, late: bool)
    requires TurnOk(w, id)
    ensures w.task.phase.Done? ==> Resume(w, id, s, late) == w
    ensures !w.task.phase.Done? ==> Lands(w.rt, id, CarryOf(w.task.phase), Resume(w, id, s, late))
  {
    var p := w.task.phase;
    if p.Done? {
    } else if IsQueued(p) {
      SlotIsSafe(w, id, s, late);
    } else if p.LockWait? || p.Recycling? || p.Launching? || p.AbortingLaunch? {
      EnsureIsSafe(w, id, s);
    } else {
      PageIsSafe(w, id, s);
    }
  }

  // The browser field changes only in the hands of the lock's holder, and a turn moves
  // the lock only between free and its own.
  predicate Disciplined(w: Turn, id: TaskId, v: Turn) {
    && (v.rt.browser != w.rt.browser ==> HoldsLock(w.task.phase))
    && (v.rt.lock == w.rt.lock || (v.rt.lock.None? && HoldsLock(w.task.phase)) ||
      (w.rt.lock.None? && v.rt.lock == Some(id)))
    && w.rt.retired <= v.rt.retired && w.rt.nextBrowser <= v.rt.nextBrowser
  }

  lemma ResumeIsDisciplined(w: Turn, id: TaskId, s: Signal, late: bool)
    ensures Disciplined(w, id, Resume(w, id, s, late))
  {
    var p := w.task.phase;
    if IsQueued(p) {
      SlotIsDisciplined(w, id, s, late);
    } else if p.LockWait? || p.Recycling? || p.Launching? || p.AbortingLaunch? {
      EnsureIsDisciplined(w, id, s);
    } else {
      PageIsDisciplined(w, id, s);
    }
  }

  lemma SlotIsDisciplined(w: Turn, id: TaskId, s: Signal, late: bool)
    requires IsQueued(w.task.phase)
    ensures Disciplined(w, id, ResumeSlot(w, s, late))
  {
  }

  lemma EnsureIsDisciplined(w: Turn, id: TaskId, s: Signal)
    requires w.task.phase.LockWait? || w.task.phase.Recycling? || w.task.phase.Launching? ||
      w.task.phase.AbortingLaunch?
    ensures Disciplined(w, id, ResumeEnsure(w, id, s))
  {
  }

  lemma PageIsDisciplined(w: Turn, id: TaskId, s: Signal)
    ensures Disciplined(w, id, ResumePage(w, id, s))
  {
  }

  // ---- the world ----

  predicate TaskOk(r: Runtime, id: TaskId, t: Task) {
    && Settled(t) && LockedWell(r, t.phase) && AttemptKnown(r, t.phase)
    && (HoldsLock(t.phase) <==> r.lock == Some(id))
  }

  predicate Inv(w: World, max: nat) {
    && w.rt.permits + Count(w.tasks, Holding) == max + Count(w.tasks, Overdrawn)
    && w.rt.active == Count(w.tasks, Live)
    && w.rt.queued == Count(w.tasks, InQueue)
    && BrowserSafe(w.rt)
    && (w.rt.lock.Some? ==> w.rt.lock.value in w.tasks)
    && forall id :: id in w.tasks ==> TaskOk(w.rt, id, w.tasks[id])
  }

  // What `v` may have done to the lock, given what the task had in hand.
  predicate LockMove(r: Runtime, id: TaskId, c: Carry, v: Runtime) {
    && (v.lock == r.lock || (v.lock.None? && c.locked) || (r.lock.None? && v.lock == Some(id)))
    && (v.browser != r.browser ==> c.locked)
    && r.retired <= v.retired && r.nextBrowser <= v.nextBrowser
  }

  lemma PutKeepsInv(w: World, max: nat, id: TaskId, c: Carry, v: Turn)
    requires Inv(w, max)
    requires if id in w.tasks then c == CarryOf(w.tasks[id].phase) && !w.tasks[id].phase.Done? else c == NOTHING
    requires Lands(w.rt, id, c, v) && LockMove(w.rt, id, c, v.rt)
    ensures Inv(Put(w, id, v), max)
  {
    PutCounts(w, id, c, v);
    PutOthers(w, id, c, v);
  }

  lemma PutCounts(w: World, id: TaskId, c: Carry, v: Turn)
    requires if id in w.tasks then c == CarryOf(w.tasks[id].phase) && !w.tasks[id].phase.Done? else c == NOTHING
    requires w.rt.active == Count(w.tasks, Live) && w.rt.queued == Count(w.tasks, InQueue)
    requires Lands(w.rt, id, c, v)
    ensures var w' := Put(w, id, v);
      && w'.rt.permits + Count(w'.tasks, Holding) + Count(w.tasks, Overdrawn)
         == w.rt.permits + Count(w.tasks, Holding) + Count(w'.tasks, Overdrawn)
      && w'.rt.active == Count(w'.tasks, Live) && w'.rt.queued == Count(w'.tasks, InQueue)
  {
    CountPut(w.tasks, id, v.task, Holding);
    CountPut(w.tasks, id, v.task, Live);
    CountPut(w.tasks, id, v.task, InQueue);
    CountPut(w.tasks, id, v.task, Overdrawn);
  }

  lemma PutOthers(w: World, id: TaskId, c: Carry, v: Turn)
    requires forall o :: o in w.tasks ==> TaskOk(w.rt, o, w.tasks[o])
    requires if id in w.tasks then c == CarryOf(w.tasks[id].phase) else c == NOTHING
    requires LockMove(w.rt, id, c, v.rt)
    ensures forall o :: o in w.tasks && o != id ==> TaskOk(v.rt, o, w.tasks[o])
  {
    if id in w.tasks {
      assert TaskOk(w.rt, id, w.tasks[id]);
    }
    forall o | o in w.tasks && o != id
      ensures TaskOk(v.rt, o, w.tasks[o])
    {
      assert TaskOk(w.rt, o, w.tasks[o]);
    }
  }
}
