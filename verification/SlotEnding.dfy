/**
 When a page gives its slot back: not before the close of its context has ended, whether the page
 waits for that close or leaves it to a pending task. So the contexts of pages whose close has not
 ended are as bounded as the permits.
 */
module SlotEnding {
  import opened Wrappers
  import opened SlotProtocol
  import opened SlotSafety
  import opened SlotTheorems

  // ---- a page's context, by what happened to it ----

  // The page is opened and handed to the caller.
  predicate Opens(w: World, e: Event) {
    e.Wake? && e.id in w.tasks && w.tasks[e.id].phase.OpeningPage? && e.signal.Finished?
  }

  // The close of the page's context ends: while the page waits for it, with a result, an error or
  // a cancellation that found it settled; or later, when the pending close task is done.
  predicate CloseEnds(w: World, e: Event) {
    && e.Wake? && e.id in w.tasks
    && match w.tasks[e.id].phase
       case ClosingContext => e.signal.Finished? || e.signal.Raised? || (e.signal.Cancel? && e.signal.settled)
       case CloseDeferred => e.signal.Finished?
       case _ => false
  }

  // The pages that were opened and whose close has not ended, from `open` on.
  function Unclosed(w: World, open: set<TaskId>, events: seq<Event>): set<TaskId>
    decreases |events|
  {
    if events == [] then open
    else
      var e := events[0];
      var next := if Opens(w, e) then open + {e.id} else if CloseEnds(w, e) then open - {e.id} else open;
      Unclosed(Step(w, e), next, events[1..])
  }

  // A page that was opened, up to the end of its close.
  predicate PageOpen(p: Phase) { p.InBody? || p.Persisting? || p.ClosingContext? || p.CloseDeferred? }

  predicate Settling(p: Phase) { CountsActive(p) && HoldsPermit(p) }

  function OpenPages(w: World): set<TaskId> { set id | id in w.tasks && PageOpen(w.tasks[id].phase) }

  lemma TurnKeepsPage(w: Turn, id: TaskId, s: Signal, late: bool)
    ensures var p, q := w.task.phase, Resume(w, id, s, late).task.phase;
      PageOpen(q) <==> (p.OpeningPage? && s.Finished?) || (PageOpen(p) && !EndsClose(p, s))
  {
    if PageOpen(w.task.phase) {
      OpenPageTurn(w, id, s);
    } else if !w.task.phase.OpeningPage? {
      OtherTurn(w, id, s, late);
    }
  }

  predicate EndsClose(p: Phase, s: Signal) {
    || (p.ClosingContext? && (s.Finished? || s.Raised? || (s.Cancel? && s.settled)))
    || (p.CloseDeferred? && s.Finished?)
  }

  lemma OpenPageTurn(w: Turn, id: TaskId, s: Signal)
    requires PageOpen(w.task.phase)
    ensures PageOpen(ResumePage(w, id, s).task.phase) <==> !EndsClose(w.task.phase, s)
  {
  }

  lemma OtherTurn(w: Turn, id: TaskId, s: Signal, late: bool)
    requires !PageOpen(w.task.phase) && !w.task.phase.OpeningPage?
    ensures !PageOpen(Resume(w, id, s, late).task.phase)
  {
  }

  lemma StartOpensNoPage(r: Runtime, job: Job)
    ensures !PageOpen(Start(r, job).task.phase)
  {
  }

  lemma StepOpenPages(w: World, e: Event)
    ensures OpenPages(Step(w, e))
         == if Opens(w, e) then OpenPages(w) + {e.id}
            else if CloseEnds(w, e) then OpenPages(w) - {e.id}
            else OpenPages(w)
  {
    match e
    case Wake(id, s, late) => if id in w.tasks { TurnKeepsPage(Turn(w.rt, w.tasks[id]), id, s, late); }
    case Spawn(_, job) => StartOpensNoPage(w.rt, job);
    case _ =>
  }

  lemma {:induction false} UnclosedAreOpen(w: World, events: seq<Event>)
    ensures Unclosed(w, OpenPages(w), events) == OpenPages(Run(w, events))
    decreases |events|
  {
    if events != [] {
      StepOpenPages(w, events[0]);
      UnclosedAreOpen(Step(w, events[0]), events[1..]);
    }
  }

  /** Over every run, the opened pages whose close has not ended still hold their permits and are
      counted active; so there are at most max_contexts of them, plus one for every task that was
      cancelled while re-acquiring. */
  lemma UnclosedPagesAreBounded(max: nat, settings: Settings, now: int, events: seq<Event>)
    ensures var w := Run(Init(max, settings, now), events); var open := Unclosed(Init(max, settings, now), {}, events);
      && (forall id :: id in open ==> id in w.tasks && Settling(w.tasks[id].phase))
      && |open| <= w.rt.active && |open| <= max + Count(w.tasks, Overdrawn)
  {
    var w0 := Init(max, settings, now);
    var w := Run(w0, events);
    assert OpenPages(w0) == {};
    UnclosedAreOpen(w0, events);
    Reached(max, settings, now, events);
    SubsetSize(OpenPages(w), Members(w.tasks, Live));
    SubsetSize(OpenPages(w), Members(w.tasks, Holding));
  }

  /** An opened page is done only by the end of its close. While its close is pending, a timeout or a
      cancellation moves neither counter nor permit; when the close ends, the active count goes down
      and the permit comes back. */
  lemma PageEndsWithItsClose(w: World, e: Event, id: TaskId)
    requires id in w.tasks && PageOpen(w.tasks[id].phase)
    ensures var w' := Step(w, e); var t, t' := w.tasks[id], w'.tasks[id];
      && (t'.phase.Done? <==> CloseEnds(w, e) && e.id == id)
      && (e.Wake? && e.id == id && !CloseEnds(w, e) ==> w'.rt == w.rt && t' == t.(phase := t'.phase))
      && (CloseEnds(w, e) && e.id == id ==>
            && w'.rt == w.rt.(active := Max0(w.rt.active - 1), permits := w.rt.permits + 1)
            && t'.lowered == t.lowered + 1 && t'.released == t.released + 1)
  {
    if e.Wake? && e.id == id { PageTurn(Turn(w.rt, w.tasks[id]), id, e.signal, e.late); }
  }

  lemma PageTurn(w: Turn, id: TaskId, s: Signal, late: bool)
    requires PageOpen(w.task.phase)
    ensures var v := Resume(w, id, s, late);
      && (v.task.phase.Done? || (v.rt == w.rt && v.task == w.task.(phase := v.task.phase)))
      && (v.task.phase.Done? ==>
            && v.rt == w.rt.(active := Max0(w.rt.active - 1), permits := w.rt.permits + 1)
            && v.task.lowered == w.task.lowered + 1 && v.task.released == w.task.released + 1)
      && (v.task.phase.Done? <==> CloseEnds(World(w.rt, map[id := w.task]), Wake(id, s, late)))
  {
  }

  /** Leaving the body always goes on to save the state and then to close the context, whatever
      happens there. */
  lemma BodyLeadsToClose(w: World, e: Event, id: TaskId)
    requires id in w.tasks && e.Wake? && e.id == id && (e.signal.Finished? || e.signal.Raised? || e.signal.Cancel?)
    ensures var p, q := w.tasks[id].phase, Step(w, e).tasks[id].phase;
      (p == InBody ==> q == Persisting) && (p == Persisting ==> q == ClosingContext)
  {
  }

  /** A close that times out, or is cancelled while it is pending, leaves the page to its close task. */
  lemma PendingCloseIsDeferred(w: World, e: Event, id: TaskId)
    requires id in w.tasks && w.tasks[id].phase == ClosingContext && e.Wake? && e.id == id
    requires e.signal.Timeout? || (e.signal.Cancel? && !e.signal.settled)
    ensures Step(w, e) == w.(tasks := w.tasks[id := w.tasks[id].(phase := CloseDeferred)])
  {
  }

  /** A session cancelled while its page is being opened is done at once, with its permit back: its
      context, which is already open, is not closed by it. */
  lemma CancelledOpenLeavesContext(w: World, e: Event, id: TaskId)
    requires id in w.tasks && w.tasks[id].phase.OpeningPage? && e.Wake? && e.id == id && e.signal.Cancel?
    ensures var w' := Step(w, e);
      && w'.tasks[id].phase == Done(Cancelled) && w'.rt.permits == w.rt.permits + 1 && w'.rt.contexts == w.rt.contexts
      && w'.tasks[id].released == w.tasks[id].released + 1
  {
  }
}
