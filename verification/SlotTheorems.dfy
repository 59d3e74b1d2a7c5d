/**
 Theorems about every run of the slot protocol, from a fresh runtime and through any
 sequence of events.
 */
module SlotTheorems {
  import opened Wrappers
  import opened SlotProtocol
  import opened SlotSafety

  lemma StepKeepsInv(w: World, max: nat, e: Event)
    requires Inv(w, max)
    ensures Inv(Step(w, e), max)
  {
    match e
    case Spawn(id, job) => if id !in w.tasks { SpawnKeepsInv(w, max, id, job); }
    case Wake(id, s, late) =>
      if id in w.tasks {
        var turn := Turn(w.rt, w.tasks[id]);
        assert TaskOk(w.rt, id, w.tasks[id]);
        CountPut(w.tasks, id, w.tasks[id], Live);
        CountPut(w.tasks, id, w.tasks[id], InQueue);
        ResumeLands(turn, id, s, late);
        ResumeIsDisciplined(turn, id, s, late);
        if turn.task.phase.Done? {
          assert Put(w, id, turn) == w;
        } else {
          PutKeepsInv(w, max, id, CarryOf(turn.task.phase), Resume(turn, id, s, late));
        }
      }
    case Tick(_) => RuntimeOnly(w, Step(w, e), max);
    case Disconnect => RuntimeOnly(w, Step(w, e), max);
  }

  predicate StartsWell(r: Runtime, id: TaskId, v: Turn) {
    && Lands(r, id, NOTHING, v) && v.rt.lock == r.lock && v.rt.browser == r.browser && v.rt.retired == r.retired
    && v.rt.nextBrowser == r.nextBrowser
  }

  lemma SpawnKeepsInv(w: World, max: nat, id: TaskId, job: Job)
    requires Inv(w, max) && id !in w.tasks
    ensures Inv(Put(w, id, Start(w.rt, job)), max)
  {
    var t := Task(StartPhase(job), 0, 0, 0, 0);
    StartLands(w.rt, id, job, t);
    NewcomerKeepsInv(w, max, id, Start(w.rt, job));
  }

  lemma NewcomerKeepsInv(w: World, max: nat, id: TaskId, v: Turn)
    requires Inv(w, max) && id !in w.tasks && StartsWell(w.rt, id, v)
    ensures Inv(Put(w, id, v), max)
  {
    PutKeepsInv(w, max, id, NOTHING, v);
  }

  lemma StartLands(r: Runtime, id: TaskId, job: Job, t: Task)
    requires BrowserSafe(r) && r.lock != Some(id) && r.active >= 0 && r.queued >= 0
    requires t == Task(StartPhase(job), 0, 0, 0, 0)
    ensures StartsWell(r, id, Start(r, job))
  {
    var w := Turn(r, t);
    assert Mid(w, id, NOTHING);
    match job
    case Page => QueueEntryLands(w, id);
    case WarmUp => WarmEntryLands(w, id);
    case Close => CloseEntryLands(w, id);
  }

  lemma QueueEntryLands(w: Turn, id: TaskId)
    requires Mid(w, id, NOTHING) && w.task.phase.Waiting?
    ensures StartsWell(w.rt, id, UpdateQueue(w, 1))
  {
  }

  lemma WarmEntryLands(w: Turn, id: TaskId)
    requires Mid(w, id, NOTHING)
    ensures StartsWell(w.rt, id, EnsureEntry(w, Warming))
  {
    EnsureEntryLands(w, id, Warming);
  }

  lemma CloseEntryLands(w: Turn, id: TaskId)
    requires Mid(w, id, NOTHING) && w.task.phase.CloserLockWait?
    ensures StartsWell(w.rt, id, w)
  {
  }

  // The clock and a disconnect leave tasks and counters alone.
  lemma RuntimeOnly(w: World, w': World, max: nat)
    requires Inv(w, max) && w'.tasks == w.tasks
    requires w'.rt.(now := w.rt.now, browser := w.rt.browser) == w.rt && w'.rt.now >= w.rt.now
    requires w'.rt.browser.Some? <==> w.rt.browser.Some?
    requires w.rt.browser.Some? ==> w'.rt.browser.value.id == w.rt.browser.value.id
    requires w.rt.browser.Some? && w'.rt.browser.value.connected ==> w.rt.browser.value.connected
    ensures Inv(w', max)
  {
    forall o | o in w'.tasks ensures TaskOk(w'.rt, o, w'.tasks[o]) {
      assert TaskOk(w.rt, o, w.tasks[o]);
    }
  }

  lemma {:induction false} RunKeepsInv(w: World, max: nat, events: seq<Event>)
    requires Inv(w, max)
    ensures Inv(Run(w, events), max)
    decreases |events|
  {
    if events != [] {
      StepKeepsInv(w, max, events[0]);
      RunKeepsInv(Step(w, events[0]), max, events[1..]);
    }
  }

  lemma Reached(max: nat, settings: Settings, now: int, events: seq<Event>)
    ensures Inv(Run(Init(max, settings, now), events), max)
  {
    var w := Init(max, settings, now);
    assert forall k :: Members(w.tasks, k) == {};
    RunKeepsInv(w, max, events);
  }

  // ---- conservation ----

  /** Free permits and permits held by sessions always add up to max_contexts plus the
      tasks cancelled while re-acquiring; so they add up to max_contexts exactly when no
      task was cancelled there. Both counters are exact, hence never clamped. */
  lemma PermitsConserved(max: nat, settings: Settings, now: int, events: seq<Event>)
    ensures var w := Run(Init(max, settings, now), events);
      && w.rt.permits + Count(w.tasks, Holding) == max + Count(w.tasks, Overdrawn)
      && (w.rt.permits + Count(w.tasks, Holding) == max
          <==> forall id :: id in w.tasks ==> w.tasks[id].phase != Done(CancelledInYield))
      && w.rt.active == Count(w.tasks, Live) <= max + Count(w.tasks, Overdrawn)
      && w.rt.queued == Count(w.tasks, InQueue)
  {
    var w := Run(Init(max, settings, now), events);
    Reached(max, settings, now, events);
    forall id | id in w.tasks && w.tasks[id].phase == Done(CancelledInYield)
      ensures Count(w.tasks, Overdrawn) >= 1
    {
      CountPut(w.tasks, id, w.tasks[id], Overdrawn);
    }
    if forall id :: id in w.tasks ==> w.tasks[id].phase != Done(CancelledInYield) {
      assert Members(w.tasks, Overdrawn) == {};
    }
    SubsetSize(Members(w.tasks, Live), Members(w.tasks, Holding));
  }

  /** The one step that breaks conservation: a wake-up changes free plus held permits only
      when it cancels a task that is waiting to re-acquire, and then adds one. */
  lemma OnlyYieldCancelOverdraws(max: nat, settings: Settings, now: int, events: seq<Event>, e: Event)
    ensures var w := Run(Init(max, settings, now), events); var w' := Step(w, e);
      w'.rt.permits + Count(w'.tasks, Holding)
        == w.rt.permits + Count(w.tasks, Holding)
           + B(e.Wake? && e.id in w.tasks && e.signal.Cancel? && w.tasks[e.id].phase.Reacquiring?)
  {
    var w := Run(Init(max, settings, now), events);
    Reached(max, settings, now, events);
    StepKeepsInv(w, max, e);
    OverdrawnAfter(w, max, e);
  }

  lemma OverdrawnAfter(w: World, max: nat, e: Event)
    requires Inv(w, max)
    ensures Count(Step(w, e).tasks, Overdrawn) == Count(w.tasks, Overdrawn)
            + B(e.Wake? && e.id in w.tasks && e.signal.Cancel? && w.tasks[e.id].phase.Reacquiring?)
  {
    match e
    case Spawn(id, job) =>
      CountPut(w.tasks, id, Start(w.rt, job).task, Overdrawn);
    case Wake(id, s, late) =>
      if id in w.tasks {
        var turn := Turn(w.rt, w.tasks[id]);
        assert TaskOk(w.rt, id, turn.task);
        CountPut(w.tasks, id, Resume(turn, id, s, late).task, Overdrawn);
        OverdrawnBy(turn, id, s, late);
      }
    case _ =>
  }

  lemma OverdrawnBy(w: Turn, id: TaskId, s: Signal, late: bool)
    requires !w.task.phase.YieldSleeping?
    ensures Is(Overdrawn, Resume(w, id, s, late).task.phase) <==>
            Is(Overdrawn, w.task.phase) || (s.Cancel? && w.task.phase.Reacquiring?)
  {
  }

  /** Once every task has finished, the counters are back at zero and the lock is free. */
  lemma QuietRuntimeIsRestored(max: nat, settings: Settings, now: int, events: seq<Event>)
    ensures var w := Run(Init(max, settings, now), events);
      (forall id :: id in w.tasks ==> w.tasks[id].phase.Done?) ==>
        w.rt.active == 0 && w.rt.queued == 0 && w.rt.lock == None
        && w.rt.permits == max + Count(w.tasks, Overdrawn)
  {
    var w := Run(Init(max, settings, now), events);
    Reached(max, settings, now, events);
    if forall id :: id in w.tasks ==> w.tasks[id].phase.Done? {
      DoneCountsNothing(w.tasks, Holding);
      DoneCountsNothing(w.tasks, Live);
      DoneCountsNothing(w.tasks, InQueue);
    }
  }

  lemma DoneCountsNothing(tasks: map<TaskId, Task>, k: Kind)
    requires k != Overdrawn && forall id :: id in tasks ==> tasks[id].phase.Done?
    ensures Count(tasks, k) == 0
  {
    assert Members(tasks, k) == {};
  }

  // ---- recycling ----

  /** The runtime lock excludes; a launch starts from a cleared browser field; a planned
      recycle closes the browser that is still in the field while no page is live; and a
      recycle while some page is live closes a disconnected browser. So only a retry after
      a driver disconnect or an explicit close can close a connected browser in use. */
  lemma RecycleIsExclusive(max: nat, settings: Settings, now: int, events: seq<Event>, a: TaskId, b: TaskId)
    requires var w := Run(Init(max, settings, now), events);
      && a in w.tasks && b in w.tasks && HoldsLock(w.tasks[a].phase)
    ensures var w := Run(Init(max, settings, now), events); var p := w.tasks[a].phase;
      && w.rt.lock == Some(a)
      && (HoldsLock(w.tasks[b].phase) ==> a == b)
      && (p.Launching? || p.AbortingLaunch? ==> w.rt.browser.None?)
      && (p.Recycling? && p.planned ==> w.rt.browser.Some? && w.rt.active == 0 && !CountsActive(w.tasks[b].phase))
      && (w.rt.browser.Some? && w.rt.browser.value.connected && CountsActive(w.tasks[b].phase) ==>
            p.RetryClosing? || p.CloserClosing?)
  {
    var w := Run(Init(max, settings, now), events);
    Reached(max, settings, now, events);
    assert TaskOk(w.rt, a, w.tasks[a]) && TaskOk(w.rt, b, w.tasks[b]);
    CountPut(w.tasks, b, w.tasks[b], Live);
  }

  /** Once a planned recycle of the current browser has begun - finished, timed out or
      cancelled - no page goes live and the browser stays due until the field is cleared. */
  lemma RetiredBrowserStaysIdle(max: nat, settings: Settings, now: int, events: seq<Event>, more: seq<Event>)
    requires var w := Run(Init(max, settings, now), events);
      w.rt.browser.Some? && w.rt.browser.value.id in w.rt.retired
    ensures var w := Run(Init(max, settings, now), events); var w' := Run(w, more);
      w'.rt.browser.Some? && w'.rt.browser.value.id == w.rt.browser.value.id ==>
        w'.rt.active == 0 && ShouldRecycle(w'.rt) && forall id :: id in w'.tasks ==> !CountsActive(w'.tasks[id].phase)
  {
    var w := Run(Init(max, settings, now), events);
    var w' := Run(w, more);
    Reached(max, settings, now, events);
    RunKeepsInv(w, max, more);
    RetiredGrows(w, more);
    forall id | id in w'.tasks && CountsActive(w'.tasks[id].phase) ensures w'.rt.active >= 1 {
      CountPut(w'.tasks, id, w'.tasks[id], Live);
    }
  }

  lemma {:induction false} RetiredGrows(w: World, events: seq<Event>)
    ensures w.rt.retired <= Run(w, events).rt.retired
    decreases |events|
  {
    if events != [] {
      var e := events[0];
      if e.Wake? && e.id in w.tasks {
        ResumeIsDisciplined(Turn(w.rt, w.tasks[e.id]), e.id, e.signal, e.late);
      }
      RetiredGrows(Step(w, events[0]), events[1..]);
    }
  }

  /** Only the holder of the runtime lock replaces or clears the browser. */
  lemma BrowserChangesUnderLock(max: nat, settings: Settings, now: int, events: seq<Event>, e: Event)
    ensures var w := Run(Init(max, settings, now), events); var w' := Step(w, e);
      w'.rt.browser != w.rt.browser ==> e.Disconnect? || (e.Wake? && w.rt.lock == Some(e.id))
  {
    var w := Run(Init(max, settings, now), events);
    Reached(max, settings, now, events);
    if e.Wake? && e.id in w.tasks {
      assert TaskOk(w.rt, e.id, w.tasks[e.id]);
      ResumeIsDisciplined(Turn(w.rt, w.tasks[e.id]), e.id, e.signal, e.late);
    }
  }

  // ---- one session ----

  // A live session's record later on: still live and unchanged, or done after lowering the
  // count once and releasing one permit.
  predicate SettledOnce(t: Task, t': Task) {
    && t'.acquired == t.acquired && t'.raised == t.raised
    && (if CountsActive(t'.phase) then t'.lowered == t.lowered && t'.released == t.released
        else t'.phase.Done? && t'.lowered == t.lowered + 1 && t'.released == t.released + 1)
  }

  /** A session that counted itself active keeps its permit and its count until it is done,
      and by then has lowered the count once and released one permit, on every path. */
  lemma {:induction false} ActiveSettlesOnce(w: World, id: TaskId, more: seq<Event>)
    requires id in w.tasks && CountsActive(w.tasks[id].phase)
    ensures id in Run(w, more).tasks && SettledOnce(w.tasks[id], Run(w, more).tasks[id])
    decreases |more|
  {
    if more != [] {
      var e, w1 := more[0], Step(w, more[0]);
      if e.Wake? && e.id == id {
        LiveTurn(Turn(w.rt, w.tasks[id]), id, e.signal, e.late);
      }
      assert SettledOnce(w.tasks[id], w1.tasks[id]);
      if CountsActive(w1.tasks[id].phase) {
        ActiveSettlesOnce(w1, id, more[1..]);
      } else {
        DoneIsFinal(w1, id, more[1..]);
      }
    }
  }

  lemma LiveTurn(w: Turn, id: TaskId, s: Signal, late: bool)
    requires CountsActive(w.task.phase)
    ensures SettledOnce(w.task, Resume(w, id, s, late).task)
  {
  }

  lemma {:induction false} DoneIsFinal(w: World, id: TaskId, more: seq<Event>)
    requires id in w.tasks && w.tasks[id].phase.Done?
    ensures id in Run(w, more).tasks && Run(w, more).tasks[id] == w.tasks[id]
    decreases |more|
  {
    if more != [] {
      DoneIsFinal(Step(w, more[0]), id, more[1..]);
    }
  }

  /** The check for a missing browser right after ensure never fires: a turn that counts a
      session active always goes on to prepare its page. */
  lemma ActivationSucceeds(w: Turn, id: TaskId, s: Signal, late: bool)
    requires TurnOk(w, id)
    ensures var v := Resume(w, id, s, late);
      v.task.raised > w.task.raised ==> v.task.phase.Preparing? && v.rt.browser.Some?
  {
    ResumeLands(w, id, s, late);
  }
}
