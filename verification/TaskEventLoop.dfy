/**
 The registry object under an event loop: any sequence of registrations, completions, drains
 and cancellations, handled by calls of its methods, leaves object and drains as the machine's
 run does, and so keeps all that is proved about every run.
 */
module TaskEventLoop {
  import opened Wrappers
  import opened BackgroundTasks

  class TaskLoop {
    const registry: BackgroundTaskRegistry
    var kinds: map<TaskId, Kind>
    var unfinished: set<TaskId>
    var drains: map<nat, Drain>

    ghost function View(): World
      reads this, registry
    {
      World(registry.View(), kinds, unfinished, drains)
    }

    constructor ()
      ensures View() == FRESH && fresh(registry)
    {
      registry := new BackgroundTaskRegistry();
      kinds, unfinished, drains := map[], {}, map[];
    }

    method Handle(e: Event)
      modifies this, registry
      ensures View() == Step(old(View()), e)
    {
      match e
      case Register(t, k) => if t !in kinds { RegisterTask(t, k); }
      case Finish(t) => unfinished := unfinished - {t};
      case DoneCallback(t) => if t !in unfinished { registry.DoneCallback(t); }
      case BeginDrain(d) =>
        if d !in drains {
          var v := registry.TakeFrom(Popup, Drain(Returned, {}, {}, kinds.Keys));
          drains := drains[d := v];
        }
      case Resume(d) =>
        if d in drains {
          var v := registry.ContinueDrain(drains[d], unfinished);
          drains := drains[d := v];
        }
      case CancelDrain(d) =>
        if d in drains {
          var v := registry.CancelDrain(drains[d]);
          drains := drains[d := v];
        }
    }

    method RegisterTask(t: TaskId, k: Kind)
      requires t !in kinds
      modifies this, registry
      ensures View() == Step(old(View()), Register(t, k))
    {
      match k {
        case Popup => registry.RegisterPopupGuardTask(t);
        case Eviction => registry.RegisterEvictionCleanupTask(t);
        case Bounded => registry.RegisterCleanupTask(t, false);
        case RuntimeClose => registry.RegisterCleanupTask(t, true);
      }
      kinds, unfinished := kinds[t := k], unfinished + {t};
    }

    /** Over any sequence of events from a fresh start an unfinished task is tracked by the
        object or held by a drain if and only if no drain was cancelled in a wait for runtime
        closes while it held the task. */
    method Drive(events: seq<Event>)
      requires View() == FRESH
      modifies this, registry
      ensures View() == Run(FRESH, events) && unfinished <= kinds.Keys
      ensures forall t :: t in unfinished ==>
                (t in Registry(registry.View(), kinds[t]) || UnderDrain(View(), t) <==> !Dropped(View(), t))
    {
      ghost var w := View();
      for i := 0 to |events|
        invariant Run(w, events) == Run(View(), events[i..])
      {
        assert events[i..][1..] == events[i + 1..];
        Handle(events[i]);
      }
      RunKeepsInv(FRESH, events);
      forall t | t in unfinished
        ensures t in Registry(registry.View(), kinds[t]) || UnderDrain(View(), t) <==> !Dropped(View(), t)
      {
        NothingIsLostIff(events, t);
      }
    }
  }
}
