/**
 Two questions about every run of the slot protocol: which browser a retry closes, and when
 a runtime that looks idle to the pool has a page session.
 */
module SlotRecycling {
  import opened Wrappers
  import opened SlotProtocol
  import opened SlotSafety
  import opened SlotTheorems
  import opened SlotRuns

  // ---- launches ----

  predicate IsLaunch(w: World, e: Event) {
    e.Wake? && e.id in w.tasks && w.tasks[e.id].phase.Launching? && e.signal.Finished?
  }

  // Launches that completed.
  function LaunchCount(w: World, events: seq<Event>): nat
    decreases |events|
  {
    if events == [] then 0 else B(IsLaunch(w, events[0])) + LaunchCount(Step(w, events[0]), events[1..])
  }

  lemma ResumeLaunches(w: Turn, id: TaskId, s: Signal, late: bool)
    ensures Resume(w, id, s, late).rt.nextBrowser == w.rt.nextBrowser + B(w.task.phase.Launching? && s.Finished?)
  {
  }

  lemma {:induction false} LaunchesCounted(w: World, events: seq<Event>)
    ensures Run(w, events).rt.nextBrowser == w.rt.nextBrowser + LaunchCount(w, events)
    decreases |events|
  {
    if events != [] {
      var e := events[0];
      if e.Wake? && e.id in w.tasks { ResumeLaunches(Turn(w.rt, w.tasks[e.id]), e.id, e.signal, e.late); }
      LaunchesCounted(Step(w, e), events[1..]);
    }
  }

  // ---- retries ----

  // The task is about to close, or is closing, a browser other than the one it failed on.
  predicate ClosesAnother(w: World, id: TaskId)
    requires id in w.tasks && HasAttempt(w.tasks[id].phase)
  {
    w.rt.browser.Some? && w.rt.browser.value.id != w.tasks[id].phase.on
  }

  /** A retry that is granted the lock closes a browser other than the one it failed on if and
      only if there is a browser and another launch than that browser's has completed since. */
  lemma RetryClosesOtherIff(max: nat, settings: Settings, now: int, events: seq<Event>, id: TaskId, late: bool)
    requires var w := Run(Init(max, settings, now), events);
      id in w.tasks && w.tasks[id].phase.RetryLockWait? && w.rt.lock.None?
    ensures var w := Run(Init(max, settings, now), events); var on := w.tasks[id].phase.on;
      var w' := Step(w, Wake(id, Lock, late));
      && w'.tasks[id].phase == RetryClosing(on) && w'.rt.browser == w.rt.browser
      && (ClosesAnother(w', id) <==> w.rt.browser.Some? && w.rt.nextBrowser > on + 1)
  {
    var w := Run(Init(max, settings, now), events);
    Reached(max, settings, now, events);
    assert TaskOk(w.rt, id, w.tasks[id]);
  }

  /** An attempt starts on the browser launched last. */
  lemma AttemptStartsOnLatest(max: nat, settings: Settings, now: int, events: seq<Event>, e: Event, id: TaskId)
    requires var w := Run(Init(max, settings, now), events);
      id in Step(w, e).tasks && Step(w, e).tasks[id].phase.OpeningContext? &&
        (id in w.tasks ==> !w.tasks[id].phase.OpeningContext?)
    ensures var w' := Step(Run(Init(max, settings, now), events), e);
      w'.rt.browser.Some? && w'.rt.browser.value.id == w'.tasks[id].phase.on &&
        w'.rt.nextBrowser == w'.tasks[id].phase.on + 1
  {
    var w := Run(Init(max, settings, now), events);
    Reached(max, settings, now, events);
    StepKeepsInv(w, max, e);
    LatestBrowser(Step(w, e), max);
    if e.Wake? && e.id == id { OpensOnCurrent(Turn(w.rt, w.tasks[id]), id, e.signal, e.late); }
    if e.Spawn? && e.id == id { StartOpensNothing(w.rt, e.job); }
  }

  lemma LatestBrowser(w: World, max: nat)
    requires Inv(w, max)
    ensures w.rt.browser.Some? ==> w.rt.nextBrowser == w.rt.browser.value.id + 1
  {
  }

  lemma StartOpensNothing(r: Runtime, job: Job)
    ensures !Start(r, job).task.phase.OpeningContext?
  {
  }

  lemma OpensOnCurrent(w: Turn, id: TaskId, s: Signal, late: bool)
    requires !w.task.phase.OpeningContext?
    ensures var v := Resume(w, id, s, late);
      v.task.phase.OpeningContext? ==> v.rt.browser.Some? && v.rt.browser.value.id == v.task.phase.on
  {
  }

  /** From the start of an attempt on: when its retry is granted the lock it closes another
      browser if and only if there is one and a launch has completed in between. */
  lemma RetryClosesOtherSince(max: nat, settings: Settings, now: int, events: seq<Event>, more: seq<Event>, id: TaskId)
    requires var w := Run(Init(max, settings, now), events); var w' := Run(w, more);
      && id in w.tasks && w.tasks[id].phase.OpeningContext? && w.rt.nextBrowser == w.tasks[id].phase.on + 1
      && id in w'.tasks && w'.tasks[id].phase.RetryLockWait? && w'.tasks[id].phase.on == w.tasks[id].phase.on
    ensures var w := Run(Init(max, settings, now), events); var w' := Run(w, more);
      ClosesAnother(w', id) <==> w'.rt.browser.Some? && LaunchCount(w, more) > 0
  {
    var w := Run(Init(max, settings, now), events);
    Reached(max, settings, now, events);
    RunKeepsInv(w, max, more);
    LaunchesCounted(w, more);
  }

  // ---- sessions that go live while the browser is being closed ----

  predicate LiveIn(w: World, id: TaskId) { id in w.tasks && CountsActive(w.tasks[id].phase) }

  // Task a is closing the browser that is in the field.
  predicate Closing(w: World, a: TaskId) {
    a in w.tasks && w.rt.browser.Some? &&
      (w.tasks[a].phase.Recycling? || w.tasks[a].phase.RetryClosing? || w.tasks[a].phase.CloserClosing?)
  }

  // A permit reaches a session in the queue, and the browser is not due for recycling.
  predicate FastPath(w: World, e: Event) {
    && e.Wake? && e.signal.Permit? && e.id in w.tasks && w.rt.permits > 0 && !ShouldRecycle(w.rt)
    && (w.tasks[e.id].phase.Waiting? || w.tasks[e.id].phase.Reacquiring?)
  }

  /** While a browser is being closed, a step makes a session live on it if and only if the step
      hands a permit to a session in the queue and the browser is not due for recycling. So it
      never happens under a recycle, and the browser of such a close is connected: the closer is
      a retry or an explicit close. */
  lemma LiveUnderCloseIff(max: nat, settings: Settings, now: int, events: seq<Event>, a: TaskId, e: Event, id: TaskId)
    requires Closing(Run(Init(max, settings, now), events), a)
    ensures var w := Run(Init(max, settings, now), events); var w' := Step(w, e);
      && (!LiveIn(w, id) && LiveIn(w', id) <==> FastPath(w, e) && e.id == id)
      && (FastPath(w, e) ==>
            && w'.rt.browser == w.rt.browser && w.rt.browser.value.connected && w'.tasks[e.id].phase == Preparing
            && (w.tasks[a].phase.RetryClosing? || w.tasks[a].phase.CloserClosing?))
  {
    var w := Run(Init(max, settings, now), events);
    Reached(max, settings, now, events);
    if !ShouldRecycle(w.rt) { CloserOfUsable(w, max, a); }
    StepGoesLive(w, max, a, e, id);
  }

  lemma StepGoesLive(w: World, max: nat, a: TaskId, e: Event, id: TaskId)
    requires Inv(w, max) && Closing(w, a)
    ensures var w' := Step(w, e);
      && (!LiveIn(w, id) && LiveIn(w', id) <==> FastPath(w, e) && e.id == id)
      && (FastPath(w, e) ==> w'.rt.browser == w.rt.browser && w'.tasks[e.id].phase == Preparing)
  {
    match e
    case Wake(o, s, late) => if o in w.tasks { WokenGoesLive(w, max, a, o, s, late); }
    case Spawn(_, job) => StartIsNotLive(w.rt, job);
    case _ =>
  }

  lemma StartIsNotLive(r: Runtime, job: Job)
    ensures !CountsActive(Start(r, job).task.phase)
  {
  }

  // Whoever closes a browser that is not due for recycling is a retry or an explicit close.
  lemma CloserOfUsable(w: World, max: nat, a: TaskId)
    requires Inv(w, max) && Closing(w, a) && !ShouldRecycle(w.rt)
    ensures w.rt.browser.value.connected && (w.tasks[a].phase.RetryClosing? || w.tasks[a].phase.CloserClosing?)
  {
    assert TaskOk(w.rt, a, w.tasks[a]);
  }

  lemma WokenGoesLive(w: World, max: nat, a: TaskId, id: TaskId, s: Signal, late: bool)
    requires Inv(w, max) && Closing(w, a) && id in w.tasks
    ensures var v := Resume(Turn(w.rt, w.tasks[id]), id, s, late);
      && (!CountsActive(w.tasks[id].phase) && CountsActive(v.task.phase) <==> FastPath(w, Wake(id, s, late)))
      && (FastPath(w, Wake(id, s, late)) ==> v.task.phase == Preparing && v.rt.browser == w.rt.browser)
  {
    var turn := Turn(w.rt, w.tasks[id]);
    assert TaskOk(w.rt, a, w.tasks[a]) && TaskOk(w.rt, id, w.tasks[id]);
    if IsQueued(turn.task.phase) {
      QueuedGoesLive(turn, s, late);
    } else {
      OthersStay(turn, id, s, late);
    }
  }

  lemma QueuedGoesLive(w: Turn, s: Signal, late: bool)
    requires IsQueued(w.task.phase) && w.rt.browser.Some?
    ensures var v := ResumeSlot(w, s, late);
      && (CountsActive(v.task.phase) <==>
          s.Permit? && !w.task.phase.YieldSleeping? && w.rt.permits > 0 && !ShouldRecycle(w.rt))
      && (CountsActive(v.task.phase) ==> v.task.phase == Preparing && v.rt.browser == w.rt.browser)
  {
  }

  // A session that is not in the queue does not go live while another task has the lock, and
  // the task that closes does not either.
  lemma OthersStay(w: Turn, id: TaskId, s: Signal, late: bool)
    requires !IsQueued(w.task.phase) && w.rt.lock.Some? && w.rt.browser.Some?
    requires !w.task.phase.Launching? && !w.task.phase.AbortingLaunch?
    ensures CountsActive(Resume(w, id, s, late).task.phase) ==> CountsActive(w.task.phase)
  {
  }

  // One page is opening its context on browser 0 when an explicit close takes the lock.
  lemma CloserTakesLock() returns (w: World)
    ensures Reaches(TWO_SLOTS, w) && w.tasks.Keys == {0, 1} && w.tasks[1].phase == CloserClosing
    ensures w.rt == Launches(0, 1, 0).(lock := Some(1))
  {
    var w0 := TWO_SLOTS;
    var w1 := OneOpening();
    var r, c := Launches(0, 1, 0), Task(CloserLockWait, 0, 0, 0, 0);
    Hop(w0, w1, Spawn(1, Close));
    assert Step(w1, Spawn(1, Close)) == Put(w1, 1, Turn(r, c));
    var c1 := Turn(r.(lock := Some(1)), c.(phase := CloserClosing));
    Go(w0, w1, 1, Turn(r, c), Lock, c1);
    w := Put(w1, 1, c1);
  }

  /** It happens: while that close has the browser, another page goes live on it. */
  lemma PageGoesLiveUnderClose()
    ensures exists events :: var w := Run(Init(2, Settings(0, 0), 0), events);
      && w.tasks.Keys == {0, 1, 2} && w.tasks[1].phase == CloserClosing && w.tasks[2].phase == Preparing
      && w.rt.browser == Some(Browser(0, true))
  {
    var w := CloserTakesLock();
    Begin(TWO_SLOTS, w, 2);
    var u := Turn(Launches(0, 2, 0).(lock := Some(1)), At(Preparing, 1, 0, 1));
    Go(TWO_SLOTS, w, 2, Start(w.rt, Page), Permit, u);
    var events :| Run(TWO_SLOTS, events) == Put(w, 2, u);
  }

  // ---- runtimes that look idle ----

  // Between its permit and its activation a session is in neither counter.
  predicate InTransit(p: Phase) { HoldsPermit(p) && !CountsActive(p) }

  /** Eviction takes a runtime to be idle when nothing is active or queued. Such a runtime has a
      session under way if and only if one is in transit, that is, if and only if some permit is
      out. */
  lemma IdleLookingHasSessionIff(max: nat, settings: Settings, now: int, events: seq<Event>)
    requires var w := Run(Init(max, settings, now), events); w.rt.active + w.rt.queued == 0
    ensures var w := Run(Init(max, settings, now), events);
      && (w.rt.permits < max + Count(w.tasks, Overdrawn)
          <==> exists id :: id in w.tasks && IsSession(w.tasks[id].phase))
      && forall id :: id in w.tasks && IsSession(w.tasks[id].phase) ==> InTransit(w.tasks[id].phase)
  {
    var w := Run(Init(max, settings, now), events);
    Reached(max, settings, now, events);
    forall id | id in w.tasks && IsSession(w.tasks[id].phase)
      ensures InTransit(w.tasks[id].phase) && Count(w.tasks, Holding) >= 1
    {
      CountPut(w.tasks, id, w.tasks[id], Live);
      CountPut(w.tasks, id, w.tasks[id], InQueue);
      CountPut(w.tasks, id, w.tasks[id], Holding);
    }
    if Count(w.tasks, Holding) >= 1 {
      var id :| id in Members(w.tasks, Holding);
      assert IsSession(w.tasks[id].phase);
    }
  }

  /** It happens: a first session that launches the browser is in neither counter. */
  lemma LaunchingSessionLooksIdle()
    ensures exists events :: var w := Run(Init(1, Settings(1, 0), 0), events);
      0 in w.tasks && w.tasks[0].phase == Launching(Entering) && w.rt.active + w.rt.queued == 0
  {
    var w0 := ONE_SLOT;
    assert Run(w0, []) == w0;
    Begin(w0, w0, 0);
    var t1 := Turn(w0.rt.(permits := 0), At(LockWait(Entering), 1, 0, 0));
    Go(w0, w0, 0, Start(w0.rt, Page), Permit, t1);
    var t2 := Turn(t1.rt.(lock := Some(0)), At(Launching(Entering), 1, 0, 0));
    Go(w0, w0, 0, t1, Lock, t2);
    var events :| Run(w0, events) == Put(w0, 0, t2);
  }
}
