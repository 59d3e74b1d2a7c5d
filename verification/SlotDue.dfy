/**
 When a browser is due for recycling, by what happened since its launch, and what the steps of a
 recycle do about it.
 */
module SlotDue {
  import opened Wrappers
  import opened SlotProtocol
  import opened SlotSafety
  import opened SlotTheorems
  import opened SlotRecycling

  // ---- since the launch ----

  predicate OpensContext(w: World, e: Event) {
    e.Wake? && e.id in w.tasks && w.tasks[e.id].phase.OpeningContext? && e.signal.Finished?
  }

  // Contexts opened since the last launch that completed, n of them before.
  function ContextsSince(w: World, n: nat, events: seq<Event>): nat
    decreases |events|
  {
    if events == [] then n
    else
      var e := events[0];
      ContextsSince(Step(w, e), if IsLaunch(w, e) then 0 else if OpensContext(w, e) then n + 1 else n, events[1..])
  }

  // The clock at the last launch that completed, t before.
  function LaunchTime(w: World, t: int, events: seq<Event>): int
    decreases |events|
  {
    if events == [] then t
    else LaunchTime(Step(w, events[0]), if IsLaunch(w, events[0]) then w.rt.now else t, events[1..])
  }

  // The runtime remembers both, the time as long as it has a browser.
  predicate Remembers(r: Runtime, n: nat, t: int) { r.contexts == n && (r.browser.Some? ==> r.launchedAt == t) }

  lemma TurnRemembers(w: Turn, id: TaskId, s: Signal, late: bool, n: nat, t: int)
    requires Remembers(w.rt, n, t)
    ensures var p := w.task.phase;
      if p.Launching? && s.Finished? then Remembers(Resume(w, id, s, late).rt, 0, w.rt.now)
      else Remembers(Resume(w, id, s, late).rt, if p.OpeningContext? && s.Finished? then n + 1 else n, t)
  {
  }

  lemma StartRemembers(r: Runtime, job: Job, n: nat, t: int)
    requires Remembers(r, n, t)
    ensures Remembers(Start(r, job).rt, n, t)
  {
  }

  lemma {:induction false} RunRemembers(w: World, n: nat, t: int, events: seq<Event>)
    requires Remembers(w.rt, n, t)
    ensures Remembers(Run(w, events).rt, ContextsSince(w, n, events), LaunchTime(w, t, events))
    decreases |events|
  {
    if events != [] {
      var e := events[0];
      if e.Wake? && e.id in w.tasks { TurnRemembers(Turn(w.rt, w.tasks[e.id]), e.id, e.signal, e.late, n, t); }
      if e.Spawn? { StartRemembers(w.rt, e.job, n, t); }
      var n' := if IsLaunch(w, e) then 0 else if OpensContext(w, e) then n + 1 else n;
      RunRemembers(Step(w, e), n', if IsLaunch(w, e) then w.rt.now else t, events[1..]);
    }
  }

  lemma {:induction false} SettingsStay(w: World, events: seq<Event>)
    ensures Run(w, events).rt.settings == w.rt.settings
    decreases |events|
  {
    if events != [] {
      var e := events[0];
      if e.Wake? && e.id in w.tasks { TurnKeepsSettings(Turn(w.rt, w.tasks[e.id]), e.id, e.signal, e.late); }
      SettingsStay(Step(w, e), events[1..]);
    }
  }

  lemma TurnKeepsSettings(w: Turn, id: TaskId, s: Signal, late: bool)
    ensures Resume(w, id, s, late).rt.settings == w.rt.settings
  {
  }

  /** In every run a browser is due for recycling if and only if it is disconnected, or no page is
      active and, since its launch, the configured number of contexts has been opened or the
      configured lifetime has passed. Settings of zero or less switch the two off, and so does a
      launch at a clock of zero or less for the lifetime. */
  lemma DueIff(max: nat, settings: Settings, now: int, events: seq<Event>)
    ensures var w0 := Init(max, settings, now); var w := Run(w0, events);
      var n, t := ContextsSince(w0, 0, events), LaunchTime(w0, 0, events);
      ShouldRecycle(w.rt) <==>
      && w.rt.browser.Some?
      && (|| !w.rt.browser.value.connected
          || (&& Count(w.tasks, Live) == 0
              && (|| (settings.maxContextsBeforeRecycle > 0 && n >= settings.maxContextsBeforeRecycle)
                  || (settings.maxLifetime > 0 && t > 0 && w.rt.now - t >= settings.maxLifetime))))
  {
    var w0 := Init(max, settings, now);
    RunRemembers(w0, 0, 0, events);
    SettingsStay(w0, events);
    Reached(max, settings, now, events);
  }

  // ---- the steps of a recycle ----

  /** A task that is granted the lock to ensure the browser recycles it if and only if it is due;
      launches one if there is none; and else goes on at once with the lock free again. */
  lemma LockGrantOutcome(w: World, id: TaskId, late: bool)
    requires id in w.tasks && w.tasks[id].phase.LockWait? && w.rt.lock.None?
    ensures var w' := Step(w, Wake(id, Lock, late)); var role, q := w.tasks[id].phase.role, w'.tasks[id].phase;
      if ShouldRecycle(w.rt) then q == Recycling(role, w.rt.browser.value.connected) && w'.rt.lock == Some(id)
      else if w.rt.browser.None? then q == Launching(role) && w'.rt.lock == Some(id)
      else w'.rt.lock == None && w'.rt.browser == w.rt.browser && (role.Entering? ==> q == Preparing)
  {
  }

  /** Whatever closes the browser leaves the field empty when the close ends. */
  lemma CloseClears(w: World, id: TaskId, late: bool)
    requires id in w.tasks
    requires var p := w.tasks[id].phase; p.Recycling? || p.RetryClosing? || p.CloserClosing? || p.AbortingLaunch?
    ensures Step(w, Wake(id, Finished, late)).rt.browser == None
  {
  }

  /** A launch that completes puts a connected browser with a new identity into the field. */
  lemma LaunchFills(w: World, id: TaskId, late: bool)
    requires id in w.tasks && w.tasks[id].phase.Launching?
    ensures var w' := Step(w, Wake(id, Finished, late));
      w'.rt.browser == Some(Browser(w.rt.nextBrowser, true)) && w'.rt.lock == None
  {
  }

  /** A session that is granted its permit gives it back and waits again if and only if the number of
      contexts is reached with nobody active; past its deadline it then times out instead, with the
      permit given back too. In every other case it keeps the permit and goes on to the browser. */
  lemma YieldsIff(w: World, id: TaskId, late: bool)
    requires id in w.tasks && w.tasks[id].phase == Waiting && w.rt.permits > 0
    ensures var w' := Step(w, Wake(id, Permit, late)); var q := w'.tasks[id].phase; var r, n := w.rt,
      w.rt.settings.maxContextsBeforeRecycle;
      if r.browser.Some? && n > 0 && r.contexts >= n && r.active <= 0
      then w'.rt.permits == r.permits && q == (if late then Done(TimedOut) else Reacquiring)
      else w'.rt.permits == r.permits - 1 && (q == Preparing || q == LockWait(Entering))
           && (q == Preparing <==> r.browser.Some? && !ShouldRecycle(r))
  {
  }
}
