/**
 Concrete runs of the slot protocol that show where its promises end.
 */
module SlotRuns {
  import opened Wrappers
  import opened SlotProtocol

  ghost predicate Reaches(w: World, w': World) { exists events :: Run(w, events) == w' }

  lemma {:induction false} RunSnoc(w: World, events: seq<Event>, e: Event)
    ensures Run(w, events + [e]) == Step(Run(w, events), e)
    decreases |events|
  {
    if events == [] {
      assert events + [e] == [e] && [e][1..] == [];
    } else {
      assert (events + [e])[1..] == events[1..] + [e];
      RunSnoc(Step(w, events[0]), events[1..], e);
    }
  }

  lemma Hop(w: World, w': World, e: Event)
    requires Reaches(w, w')
    ensures Reaches(w, Step(w', e))
  {
    var events :| Run(w, events) == w';
    RunSnoc(w, events, e);
  }

  // Waking task `id` with `s` turns its record and the runtime from `t` into `v`.
  lemma Go(w0: World, w: World, id: TaskId, t: Turn, s: Signal, v: Turn)
    requires Reaches(w0, Put(w, id, t)) && Resume(t, id, s, false) == v
    ensures Reaches(w0, Put(w, id, v))
  {
    Hop(w0, Put(w, id, t), Wake(id, s, false));
    assert w.tasks[id := t.task][id := v.task] == w.tasks[id := v.task];
  }

  lemma Begin(w0: World, w: World, id: TaskId)
    requires Reaches(w0, w) && id !in w.tasks
    ensures Reaches(w0, Put(w, id, Start(w.rt, Page)))
  {
    Hop(w0, w, Spawn(id, Page));
  }

  // ---- more pages than slots ----

  const ONE_CONTEXT := Settings(1, 0)
  const ONE_SLOT := Init(1, ONE_CONTEXT, 0)

  function Idle(permits: nat, contexts: nat): Runtime {
    Runtime(ONE_CONTEXT, permits, 0, 0, contexts, Some(Browser(0, true)), 0, None, 0, 1, {})
  }

  function At(p: Phase, acquired: nat, released: nat, live: nat): Task { Task(p, acquired, released, live, 0) }

  // A first page launches the browser and goes live.
  lemma FirstPageGoesLive()
    ensures Reaches(ONE_SLOT, Put(ONE_SLOT, 0, Turn(Idle(0, 0).(active := 1), At(Preparing, 1, 0, 1))))
  {
    var w0 := ONE_SLOT;
    assert Run(w0, []) == w0;
    Begin(w0, w0, 0);
    var t1 := Turn(w0.rt.(permits := 0), At(LockWait(Entering), 1, 0, 0));
    Go(w0, w0, 0, Start(w0.rt, Page), Permit, t1);
    var t2 := Turn(t1.rt.(lock := Some(0)), At(Launching(Entering), 1, 0, 0));
    Go(w0, w0, 0, t1, Lock, t2);
    Go(w0, w0, 0, t2, Finished, Turn(Idle(0, 0).(active := 1), At(Preparing, 1, 0, 1)));
  }

  // It opens one context, which reaches the recycle threshold, and leaves.
  lemma FirstPage() returns (w: World)
    ensures Reaches(ONE_SLOT, w) && w.rt == Idle(1, 1) && w.tasks.Keys == {0}
  {
    FirstPageGoesLive();
    var w0, r := ONE_SLOT, Idle(0, 0).(active := 1);
    var t1 := Turn(r, At(OpeningContext(0, 0), 1, 0, 1));
    Go(w0, w0, 0, Turn(r, At(Preparing, 1, 0, 1)), Finished, t1);
    var t2 := Turn(r.(contexts := 1), At(OpeningPage(0, 0), 1, 0, 1));
    Go(w0, w0, 0, t1, Finished, t2);
    var t3 := Turn(Idle(1, 1), Task(Done(Cancelled), 1, 1, 1, 1));
    Go(w0, w0, 0, t2, Cancel(true), t3);
    w := Put(w0, 0, t3);
  }

  // A second page gives its permit back and is cancelled while it re-acquires.
  lemma SecondPage(w: World) returns (w': World)
    requires Reaches(ONE_SLOT, w) && w.rt == Idle(1, 1) && w.tasks.Keys == {0}
    ensures Reaches(ONE_SLOT, w') && w'.rt == Idle(2, 1) && w'.tasks.Keys == {0, 1}
  {
    Begin(ONE_SLOT, w, 1);
    var t1 := Turn(w.rt.(queued := 1), At(Reacquiring, 1, 1, 0));
    Go(ONE_SLOT, w, 1, Start(w.rt, Page), Permit, t1);
    var t2 := Turn(Idle(2, 1), At(Done(CancelledInYield), 1, 2, 0));
    Go(ONE_SLOT, w, 1, t1, Cancel(true), t2);
    w' := Put(w, 1, t2);
  }

  // A third page recycles the browser and goes live; a fourth still finds a permit.
  lemma TwoMorePages(w: World) returns (w': World)
    requires Reaches(ONE_SLOT, w) && w.rt == Idle(2, 1) && w.tasks.Keys == {0, 1}
    ensures Reaches(ONE_SLOT, w') && w'.rt.active == 2
  {
    Begin(ONE_SLOT, w, 2);
    var t1 := Turn(Idle(2, 1).(queued := 1), At(Reacquiring, 1, 1, 0));
    Go(ONE_SLOT, w, 2, Start(w.rt, Page), Permit, t1);
    var t2 := Turn(Idle(1, 1), At(LockWait(Entering), 2, 1, 0));
    Go(ONE_SLOT, w, 2, t1, Permit, t2);
    var t3 := Turn(Idle(1, 1).(lock := Some(2), retired := {0}), At(Recycling(Entering, true), 2, 1, 0));
    Go(ONE_SLOT, w, 2, t2, Lock, t3);
    var t4 := Turn(t3.rt.(browser := None), At(Launching(Entering), 2, 1, 0));
    Go(ONE_SLOT, w, 2, t3, Finished, t4);
    var r := Runtime(ONE_CONTEXT, 1, 1, 0, 0, Some(Browser(1, true)), 0, None, 0, 2, {0});
    var t5 := Turn(r, At(Preparing, 2, 1, 1));
    Go(ONE_SLOT, w, 2, t4, Finished, t5);
    var w2 := Put(w, 2, t5);
    Begin(ONE_SLOT, w2, 3);
    var t6 := Turn(r.(permits := 0, active := 2), At(Preparing, 1, 0, 1));
    Go(ONE_SLOT, w2, 3, Start(r, Page), Permit, t6);
    w' := Put(w2, 3, t6);
  }

  /** With one slot, a cancellation during the re-acquire lets two pages be live. */
  lemma CancelledYieldExceedsCapacity()
    ensures exists events :: Run(Init(1, Settings(1, 0), 0), events).rt.active == 2
  {
    var w := FirstPage();
    w := SecondPage(w);
    w := TwoMorePages(w);
  }

  // ---- a retry that closes a healthy browser ----

  const TWO_SLOTS := Init(2, Settings(0, 0), 0)

  // `active` pages are live on a connected browser.
  function Launches(browser: nat, active: nat, contexts: nat): Runtime
    requires active <= 2
  {
    Runtime(Settings(0, 0), 2 - active, active, 0, contexts, Some(Browser(browser, true)), 0, None, 0, browser + 1, {})
  }

  lemma OneOpening() returns (w: World)
    ensures Reaches(TWO_SLOTS, w) && w == World(Launches(0, 1, 0), map[0 := At(OpeningContext(0, 0), 1, 0, 1)])
  {
    var w0 := TWO_SLOTS;
    assert Run(w0, []) == w0;
    Begin(w0, w0, 0);
    var t1 := Turn(w0.rt.(permits := 1), At(LockWait(Entering), 1, 0, 0));
    Go(w0, w0, 0, Start(w0.rt, Page), Permit, t1);
    var t2 := Turn(t1.rt.(lock := Some(0)), At(Launching(Entering), 1, 0, 0));
    Go(w0, w0, 0, t1, Lock, t2);
    var t3 := Turn(Launches(0, 1, 0), At(Preparing, 1, 0, 1));
    Go(w0, w0, 0, t2, Finished, t3);
    var t4 := t3.(task := At(OpeningContext(0, 0), 1, 0, 1));
    Go(w0, w0, 0, t3, Finished, t4);
    w := Put(w0, 0, t4);
  }

  // Two pages are opening contexts on browser 0.
  lemma BothOpening() returns (w: World)
    ensures Reaches(TWO_SLOTS, Put(w, 0, Turn(Launches(0, 2, 0), At(OpeningContext(0, 0), 1, 0, 1))))
    ensures w.tasks.Keys == {0, 1} && w.tasks[1] == At(OpeningContext(0, 0), 1, 0, 1)
  {
    var w0 := TWO_SLOTS;
    var w1 := OneOpening();
    Begin(w0, w1, 1);
    var u1 := Turn(Launches(0, 2, 0), At(Preparing, 1, 0, 1));
    Go(w0, w1, 1, Start(w1.rt, Page), Permit, u1);
    var u2 := u1.(task := At(OpeningContext(0, 0), 1, 0, 1));
    Go(w0, w1, 1, u1, Finished, u2);
    w := Put(w1, 1, u2);
    assert w.tasks[0 := w.tasks[0]] == w.tasks;
  }

  // The first page's open fails with a closed driver: it recycles the runtime ...
  lemma FirstRecycles(w: World)
    requires Reaches(TWO_SLOTS, Put(w, 0, Turn(Launches(0, 2, 0), At(OpeningContext(0, 0), 1, 0, 1))))
    ensures Reaches(TWO_SLOTS, Put(w, 0, Turn(Launches(0, 2, 0).(browser := None), At(LockWait(Retrying), 1, 0, 1))))
  {
    var w0, r := TWO_SLOTS, Launches(0, 2, 0);
    var t1 := Turn(r, At(RetryLockWait(0), 1, 0, 1));
    Go(w0, w, 0, Turn(r, At(OpeningContext(0, 0), 1, 0, 1)), Raised(true), t1);
    var t2 := Turn(r.(lock := Some(0)), At(RetryClosing(0), 1, 0, 1));
    Go(w0, w, 0, t1, Lock, t2);
    Go(w0, w, 0, t2, Finished, Turn(r.(browser := None), At(LockWait(Retrying), 1, 0, 1)));
  }

  // ... and runs its body on browser 1.
  lemma FirstReopens(w: World)
    requires Reaches(TWO_SLOTS, Put(w, 0, Turn(Launches(0, 2, 0).(browser := None), At(LockWait(Retrying), 1, 0, 1))))
    ensures Reaches(TWO_SLOTS, Put(w, 0, Turn(Launches(1, 2, 1), At(InBody, 1, 0, 1))))
  {
    var w0, r := TWO_SLOTS, Launches(0, 2, 0).(browser := None);
    var t1 := Turn(r.(lock := Some(0)), At(Launching(Retrying), 1, 0, 1));
    Go(w0, w, 0, Turn(r, At(LockWait(Retrying), 1, 0, 1)), Lock, t1);
    var t2 := Turn(Launches(1, 2, 0), At(OpeningContext(1, 1), 1, 0, 1));
    Go(w0, w, 0, t1, Finished, t2);
    var t3 := Turn(Launches(1, 2, 1), At(OpeningPage(1, 1), 1, 0, 1));
    Go(w0, w, 0, t2, Finished, t3);
    Go(w0, w, 0, t3, Finished, t3.(task := At(InBody, 1, 0, 1)));
  }

  /** The recycle after a driver disconnect closes whatever browser is current: a second
      page whose open failed on the old browser closes the new, connected one under the
      first page's body. */
  lemma RetryClosesHealthyBrowser()
    ensures exists events :: var w := Run(Init(2, Settings(0, 0), 0), events);
      && w.tasks.Keys == {0, 1} && w.tasks[0].phase == InBody && w.tasks[1].phase == RetryClosing(0)
      && w.rt.browser == Some(Browser(1, true))
  {
    var w := BothOpening();
    FirstRecycles(w);
    FirstReopens(w);
    var w0, w1 := TWO_SLOTS, Put(w, 0, Turn(Launches(1, 2, 1), At(InBody, 1, 0, 1)));
    var u0 := Turn(w1.rt, At(OpeningContext(0, 0), 1, 0, 1));
    assert w1.tasks[1 := u0.task] == w1.tasks;
    var u1 := Turn(w1.rt, At(RetryLockWait(0), 1, 0, 1));
    Go(w0, w1, 1, u0, Raised(true), u1);
    var u2 := Turn(w1.rt.(lock := Some(1)), At(RetryClosing(0), 1, 0, 1));
    Go(w0, w1, 1, u1, Lock, u2);
    var events :| Run(w0, events) == Put(w1, 1, u2);
  }
}
