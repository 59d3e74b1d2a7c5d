/**
 The runtime object under an event loop: any sequence of events, handled by calls of its
 methods, leaves the object and the tasks as the step machine says, and so keeps all that is
 proved about every run.
 */
module RuntimeEventLoop {
  import opened Wrappers
  import opened SlotProtocol
  import opened SlotSafety
  import opened SlotTheorems
  import opened SharedBrowserRuntimes

  class EventLoop {
    const runtime: SharedBrowserRuntime
    var tasks: map<TaskId, Task>

    ghost function View(): World
      reads this, runtime
    {
      World(runtime.View(), tasks)
    }

    constructor (maxContexts: int, settings: Settings, now: int)
      ensures View() == Init(if maxContexts < 1 then 1 else maxContexts, settings, now) && fresh(runtime)
    {
      runtime := new SharedBrowserRuntime(maxContexts, settings, now);
      tasks := map[];
    }

    method Handle(e: Event)
      modifies this, runtime
      ensures View() == Step(old(View()), e)
    {
      match e
      case Spawn(id, job) =>
        if id !in tasks {
          var t := runtime.Begin(job);
          tasks := tasks[id := t];
        }
      case Wake(id, s, late) =>
        if id in tasks {
          var t := runtime.Wake(tasks[id], id, s, late);
          tasks := tasks[id := t];
        }
      case Tick(elapsed) => runtime.Elapse(elapsed);
      case Disconnect => runtime.LoseConnection();
    }

    /** Every reachable state stays one: the object keeps the protocol's invariant over any
        sequence of calls. */
    method Drive(events: seq<Event>, ghost max: nat)
      requires SlotSafety.Inv(View(), max)
      modifies this, runtime
      ensures View() == Run(old(View()), events) && SlotSafety.Inv(View(), max)
    {
      ghost var w := View();
      RunKeepsInv(w, max, events);
      for i := 0 to |events|
        invariant Run(w, events) == Run(View(), events[i..])
      {
        assert events[i..][1..] == events[i + 1..];
        Handle(events[i]);
      }
    }
  }
}
