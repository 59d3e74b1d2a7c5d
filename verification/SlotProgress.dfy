/**
 Every task comes to an end: each of its turns that changes anything brings it nearer to done, no
 reachable state is a deadlock, and so everything under way can always be finished.
 */
module SlotProgress {
  import opened Wrappers
  import opened SlotProtocol
  import opened SlotSafety
  import opened SlotTheorems

  // ---- how far a task is from done ----

  function EnsureRank(role: Role): nat {
    match role case Entering => 34 case Retrying => 21 case Warming => 3
  }

  function Rank(p: Phase): nat {
    match p
    case Waiting => 40
    case YieldSleeping => 39
    case Reacquiring => 38
    case LockWait(role) => EnsureRank(role) + 3
    case Recycling(role, _) => EnsureRank(role) + 2
    case Launching(role) => EnsureRank(role) + 1
    case AbortingLaunch(role) => EnsureRank(role)
    case Preparing => 30
    case OpeningContext(a, _) => if a == 0 then 29 else 20
    case OpeningPage(a, _) => if a == 0 then 28 else 19
    case DiscardingContext(a, _, _) => if a == 0 then 27 else 18
    case RetryLockWait(_) => 26
    case RetryClosing(_) => 25
    case InBody => 10
    case Persisting => 9
    case ClosingContext => 8
    case CloseDeferred => 7
    case CloserLockWait => 2
    case CloserClosing => 1
    case Done(_) => 0
  }

  lemma SlotRank(w: Turn, s: Signal, late: bool)
    requires IsQueued(w.task.phase)
    ensures var v := ResumeSlot(w, s, late); v == w || Rank(v.task.phase) < Rank(w.task.phase)
  {
  }

  lemma EnsureTurnRank(w: Turn, id: TaskId, s: Signal)
    requires w.task.phase.LockWait? || w.task.phase.Recycling? || w.task.phase.Launching? ||
      w.task.phase.AbortingLaunch?
    ensures var v := ResumeEnsure(w, id, s); v == w || Rank(v.task.phase) < Rank(w.task.phase)
  {
  }

  lemma PageRank(w: Turn, id: TaskId, s: Signal)
    ensures var v := ResumePage(w, id, s); v == w || Rank(v.task.phase) < Rank(w.task.phase)
  {
    if HasAttempt(w.task.phase) || w.task.phase.Preparing? { AttemptRank(w, id, s); }
  }

  lemma AttemptRank(w: Turn, id: TaskId, s: Signal)
    requires HasAttempt(w.task.phase) || w.task.phase.Preparing?
    ensures var v := ResumePage(w, id, s); v == w || Rank(v.task.phase) < Rank(w.task.phase)
  {
  }

  /** A turn changes nothing, or brings the task nearer to done. */
  lemma TurnRank(w: Turn, id: TaskId, s: Signal, late: bool)
    ensures var v := Resume(w, id, s, late); v == w || Rank(v.task.phase) < Rank(w.task.phase)
  {
    var p := w.task.phase;
    if IsQueued(p) {
      SlotRank(w, s, late);
    } else if p.LockWait? || p.Recycling? || p.Launching? || p.AbortingLaunch? {
      EnsureTurnRank(w, id, s);
    } else {
      PageRank(w, id, s);
    }
  }

  // How often the task was woken and something came of it.
  function Turns(w: World, events: seq<Event>, id: TaskId): nat
    decreases |events|
  {
    if events == [] then 0
    else
      var e := events[0];
      B(e.Wake? && e.id == id && Step(w, e) != w) + Turns(Step(w, e), events[1..], id)
  }

  lemma StepRank(w: World, e: Event, id: TaskId)
    requires id in w.tasks
    ensures id in Step(w, e).tasks
    ensures B(e.Wake? && e.id == id && Step(w, e) != w) + Rank(Step(w, e).tasks[id].phase) <= Rank(w.tasks[id].phase)
  {
    if e.Wake? && e.id == id {
      TurnRank(Turn(w.rt, w.tasks[id]), id, e.signal, e.late);
      assert w.tasks[id := w.tasks[id]] == w.tasks;
    }
  }

  /** No task has more turns that change anything than its rank, which is forty at most. */
  lemma {:induction false} TurnsAreBounded(w: World, events: seq<Event>, id: TaskId)
    requires id in w.tasks
    ensures id in Run(w, events).tasks
    ensures Turns(w, events, id) + Rank(Run(w, events).tasks[id].phase) <= Rank(w.tasks[id].phase)
    decreases |events|
  {
    if events != [] {
      StepRank(w, events[0], id);
      TurnsAreBounded(Step(w, events[0]), events[1..], id);
    }
  }

  lemma RankAtMostForty(p: Phase)
    ensures Rank(p) <= 40 && (Rank(p) == 0 <==> p.Done?)
  {
  }

  // ---- no deadlock ----

  predicate AwaitsLock(p: Phase) { p.LockWait? || p.RetryLockWait? || p.CloserLockWait? }

  // What the task waits for can be granted, or ends by itself.
  predicate Ready(w: World, id: TaskId)
    requires id in w.tasks
  {
    var p := w.tasks[id].phase;
    !p.Done? && (IsQueued(p) ==> w.rt.permits > 0) && (AwaitsLock(p) ==> w.rt.lock.None?)
  }

  function Grant(p: Phase): Signal { if IsQueued(p) then Permit else if AwaitsLock(p) then Lock else Finished }

  /** Granting what a ready task waits for brings it nearer to done. */
  lemma ReadyMoves(w: World, max: nat, id: TaskId)
    requires Inv(w, max) && id in w.tasks && Ready(w, id)
    ensures var w' := Step(w, Wake(id, Grant(w.tasks[id].phase), false));
      && w'.tasks.Keys == w.tasks.Keys && Rank(w'.tasks[id].phase) < Rank(w.tasks[id].phase)
      && forall o :: o in w.tasks && o != id ==> w'.tasks[o] == w.tasks[o]
  {
    var t := Turn(w.rt, w.tasks[id]);
    var s := Grant(w.tasks[id].phase);
    assert TaskOk(w.rt, id, w.tasks[id]);
    TurnRank(t, id, s, false);
    GrantChanges(t, id);
  }

  lemma GrantChanges(w: Turn, id: TaskId)
    requires !w.task.phase.Done? && !w.task.phase.YieldSleeping?
    requires (IsQueued(w.task.phase) ==> w.rt.permits > 0) && (AwaitsLock(w.task.phase) ==> w.rt.lock.None?)
    ensures Resume(w, id, Grant(w.task.phase), false).task.phase != w.task.phase
  {
  }

  /** In every reachable state of a runtime with at least one slot, if some task is not done then some
      task is ready: permits are held by tasks under way, and the lock by one that closes or launches. */
  lemma NoDeadlock(w: World, max: nat, id: TaskId) returns (r: TaskId)
    requires Inv(w, max) && max >= 1 && id in w.tasks && !w.tasks[id].phase.Done?
    ensures r in w.tasks && Ready(w, r)
  {
    r := id;
    if IsQueued(w.tasks[id].phase) && w.rt.permits == 0 {
      assert Count(w.tasks, Holding) >= 1;
      r :| r in Members(w.tasks, Holding);
    }
    if AwaitsLock(w.tasks[r].phase) && w.rt.lock.Some? {
      r := w.rt.lock.value;
      assert TaskOk(w.rt, r, w.tasks[r]);
    }
  }

  // ---- everything can be finished ----

  ghost function TotalRank(tasks: map<TaskId, Task>): nat {
    if tasks == map[] then 0
    else
      var id :| id in tasks;
      Rank(tasks[id].phase) + TotalRank(tasks - {id})
  }

  lemma {:induction false} TotalTake(tasks: map<TaskId, Task>, id: TaskId)
    requires id in tasks
    ensures TotalRank(tasks) == Rank(tasks[id].phase) + TotalRank(tasks - {id})
    decreases |tasks|
  {
    var o :| o in tasks && TotalRank(tasks) == Rank(tasks[o].phase) + TotalRank(tasks - {o});
    if o != id {
      TotalTake(tasks - {o}, id);
      TotalTake(tasks - {id}, o);
      assert tasks - {o} - {id} == tasks - {id} - {o};
    }
  }

  lemma TotalFalls(before: map<TaskId, Task>, after: map<TaskId, Task>, id: TaskId)
    requires before.Keys == after.Keys && id in before && Rank(after[id].phase) < Rank(before[id].phase)
    requires forall o :: o in before && o != id ==> after[o] == before[o]
    ensures TotalRank(after) < TotalRank(before)
  {
    TotalTake(before, id);
    TotalTake(after, id);
    assert before - {id} == after - {id};
  }

  predicate AllDone(w: World) { forall id :: id in w.tasks ==> w.tasks[id].phase.Done? }

  // Some event brings the whole nearer to the end.
  lemma SomeTurnHelps(w: World, max: nat) returns (e: Event)
    requires Inv(w, max) && max >= 1 && !AllDone(w)
    ensures Inv(Step(w, e), max) && TotalRank(Step(w, e).tasks) < TotalRank(w.tasks)
  {
    var id :| id in w.tasks && !w.tasks[id].phase.Done?;
    var r := NoDeadlock(w, max, id);
    e := Wake(r, Grant(w.tasks[r].phase), false);
    ReadyMoves(w, max, r);
    StepKeepsInv(w, max, e);
    TotalFalls(w.tasks, Step(w, e).tasks, r);
  }

  lemma RunCons(w: World, e: Event, rest: seq<Event>)
    ensures Run(w, [e] + rest) == Run(Step(w, e), rest)
  {
    assert ([e] + rest)[1..] == rest;
  }

  lemma {:induction false} CanFinishFrom(w: World, max: nat) returns (more: seq<Event>)
    requires Inv(w, max) && max >= 1
    ensures AllDone(Run(w, more))
    decreases TotalRank(w.tasks)
  {
    more := [];
    if !AllDone(w) {
      var e := SomeTurnHelps(w, max);
      var rest := CanFinishFrom(Step(w, e), max);
      RunCons(w, e, rest);
      more := [e] + rest;
    }
  }

  /** From every reachable state of a runtime with at least one slot, all tasks can be brought to an
      end, by granting in turn what ready tasks wait for; and then counters and permits are back. */
  lemma EverythingCanFinish(max: nat, settings: Settings, now: int, events: seq<Event>) returns (more: seq<Event>)
    requires max >= 1
    ensures var w := Run(Run(Init(max, settings, now), events), more);
      AllDone(w) && w.rt.active == 0 && w.rt.queued == 0 && w.rt.lock == None && w.rt.permits >= max
  {
    var w := Run(Init(max, settings, now), events);
    Reached(max, settings, now, events);
    more := CanFinishFrom(w, max);
    RunKeepsInv(w, max, more);
    var v := Run(w, more);
    DoneCountsNothing(v.tasks, Holding);
    DoneCountsNothing(v.tasks, Live);
    DoneCountsNothing(v.tasks, InQueue);
  }

  // ---- attempts ----

  // How many attempts to open a page the task can still begin.
  function AttemptsLeft(p: Phase): nat {
    match p
    case Waiting | YieldSleeping | Reacquiring | Preparing => 2
    case LockWait(Entering) | Recycling(Entering, _) | Launching(Entering) | AbortingLaunch(Entering) => 2
    case OpeningContext(a, _) => if a == 0 then 1 else 0
    case OpeningPage(a, _) => if a == 0 then 1 else 0
    case DiscardingContext(a, _, _) => if a == 0 then 1 else 0
    case RetryLockWait(_) | RetryClosing(_) => 1
    case LockWait(Retrying) | Recycling(Retrying, _) | Launching(Retrying) | AbortingLaunch(Retrying) => 1
    case _ => 0
  }

  predicate Begins(w: World, e: Event, id: TaskId) {
    e.Wake? && e.id == id && id in w.tasks && !w.tasks[id].phase.OpeningContext? &&
      Step(w, e).tasks[id].phase.OpeningContext?
  }

  // Attempts of this task that begin along the way.
  function Attempts(w: World, events: seq<Event>, id: TaskId): nat
    decreases |events|
  {
    if events == [] then 0 else B(Begins(w, events[0], id)) + Attempts(Step(w, events[0]), events[1..], id)
  }

  lemma TurnAttempts(w: Turn, id: TaskId, s: Signal, late: bool)
    ensures var p, q := w.task.phase, Resume(w, id, s, late).task.phase;
      AttemptsLeft(q) + B(!p.OpeningContext? && q.OpeningContext?) <= AttemptsLeft(p)
  {
  }

  lemma StartAttempts(r: Runtime, job: Job)
    ensures AttemptsLeft(Start(r, job).task.phase) <= 2
  {
  }

  function Left(w: World, id: TaskId): nat { if id in w.tasks then AttemptsLeft(w.tasks[id].phase) else 2 }

  /** In every run a session begins at most two attempts to open its page. */
  lemma {:induction false} TwoAttemptsAtMost(w: World, events: seq<Event>, id: TaskId)
    ensures Attempts(w, events, id) <= Left(w, id) <= 2
    decreases |events|
  {
    if events != [] {
      var e := events[0];
      if e.Wake? && e.id in w.tasks { TurnAttempts(Turn(w.rt, w.tasks[e.id]), e.id, e.signal, e.late); }
      if e.Spawn? { StartAttempts(w.rt, e.job); }
      TwoAttemptsAtMost(Step(w, e), events[1..], id);
    }
  }

  /** A failed attempt is followed by a second one, through a recycle, if and only if it was the first
      and failed for a closed driver or page; otherwise the session leaves. */
  lemma RetriesIff(w: World, id: TaskId, retryable: bool, late: bool)
    requires id in w.tasks && w.tasks[id].phase.OpeningContext?
    ensures var p := w.tasks[id].phase; var q := Step(w, Wake(id, Raised(retryable), late)).tasks[id].phase;
      if p.attempt == 0 && retryable then q == RetryLockWait(p.on) else q == Done(Failed)
  {
  }
}
