/**
 The registries of background tasks: what happens to a task that outlives its timeout, and
 what a drain of the registries leaves behind, over any interleaving of registrations,
 completions and drains.
 */
module BackgroundTasks {
  import opened Wrappers

  type TaskId = nat

  datatype Kind = Popup | Eviction | Bounded | RuntimeClose

  datatype Registries = Registries(
    popup: set<TaskId>,
    eviction: set<TaskId>,
    bounded: set<TaskId>,
    runtimeClose: set<TaskId>)

  function Registry(r: Registries, k: Kind): set<TaskId> {
    match k
    case Popup => r.popup
    case Eviction => r.eviction
    case Bounded => r.bounded
    case RuntimeClose => r.runtimeClose
  }

  function Add(r: Registries, k: Kind, t: TaskId): Registries {
    match k
    case Popup => r.(popup := r.popup + {t})
    case Eviction => r.(eviction := r.eviction + {t})
    case Bounded => r.(bounded := r.bounded + {t})
    case RuntimeClose => r.(runtimeClose := r.runtimeClose + {t})
  }

  // A done-callback discards the finished task from its registry.
  function Discard(r: Registries, t: TaskId): Registries {
    Registries(r.popup - {t}, r.eviction - {t}, r.bounded - {t}, r.runtimeClose - {t})
  }

  // ---- draining ----

  // Where one drain is suspended: gathering the tasks it took from one registry; doing so
  // after it was cancelled itself; or, for runtime closes, waiting once more after cancelling
  // the ones still pending. Stopped: it ended by its own cancellation.
  datatype Stage = Gathering(kind: Kind) | Aborting(kind: Kind) | Cancelling | Returned | Stopped

  // `held`: the tasks in the drain's own hands; `dropped`: those it held when it was cancelled
  // in a wait for runtime closes; `before`: the tasks registered when it began.
  datatype Drain = Drain(stage: Stage, held: set<TaskId>, dropped: set<TaskId>, before: set<TaskId>)

  datatype Turn = Turn(reg: Registries, drain: Drain)

  function Hold(w: Turn, reg: Registries, k: Kind): Turn {
    Turn(reg, w.drain.(stage := Gathering(k), held := Registry(w.reg, k)))
  }

  function TakePopup(w: Turn): Turn {
    if w.reg.popup != {} then Hold(w, w.reg.(popup := {}), Popup) else TakeEviction(w)
  }

  function TakeEviction(w: Turn): Turn {
    if w.reg.eviction != {} then Hold(w, w.reg.(eviction := {}), Eviction) else TakeBounded(w)
  }

  function TakeBounded(w: Turn): Turn {
    if w.reg.bounded != {} then Hold(w, w.reg.(bounded := {}), Bounded) else TakeClose(w)
  }

  function TakeClose(w: Turn): Turn {
    if w.reg.runtimeClose != {} then Hold(w, w.reg.(runtimeClose := {}), RuntimeClose) else Return(w)
  }

  function Stop(w: Turn, dropped: set<TaskId>): Turn {
    w.(drain := w.drain.(stage := Stopped, held := {}, dropped := dropped))
  }

  function Return(w: Turn): Turn { w.(drain := w.drain.(stage := Returned, held := {})) }

  // The drain resumes: a gather only once all its tasks are done, a timed wait at any time.
  function ResumeDrain(w: Turn, unfinished: set<TaskId>): Turn {
    var pending := w.drain.held * unfinished;
    match w.drain.stage
    case Gathering(Popup) => if pending == {} then TakeEviction(w) else w
    case Gathering(Eviction) => if pending == {} then TakeBounded(w) else w
    case Gathering(Bounded) => if pending == {} then TakeClose(w) else w
    case Gathering(RuntimeClose) =>
      if pending == {} then Return(w) else w.(drain := w.drain.(stage := Cancelling, held := pending))
    case Aborting(_) => if pending == {} then Stop(w, {}) else w
    case Cancelling => Return(w.(reg := w.reg.(runtimeClose := w.reg.runtimeClose + pending)))
    case Returned | Stopped => w
  }

  // The drain is cancelled. A gather passes the cancellation on and still waits for its tasks;
  // a wait for runtime closes ends at once, and nothing puts back what the drain held.
  function AbortDrain(w: Turn): Turn {
    match w.drain.stage
    case Gathering(RuntimeClose) | Cancelling => Stop(w, w.drain.held)
    case Gathering(k) => w.(drain := w.drain.(stage := Aborting(k)))
    case _ => w
  }

  // ---- whole runs ----

  // `kinds`: every task ever registered, and where.
  datatype World = World(reg: Registries, kinds: map<TaskId, Kind>, unfinished: set<TaskId>, drains: map<nat, Drain>)

  datatype Event =
    | Register(task: TaskId, kind: Kind)
    | Finish(task: TaskId)
    | DoneCallback(task: TaskId)
    | BeginDrain(drain: nat)
    | Resume(drain: nat)
    | CancelDrain(drain: nat)

  function PutDrain(w: World, d: nat, v: Turn): World { w.(reg := v.reg, drains := w.drains[d := v.drain]) }

  function StartDrain(w: World): Drain { Drain(Returned, {}, {}, w.kinds.Keys) }

  function Step(w: World, e: Event): World {
    match e
    case Register(t, k) =>
      if t in w.kinds then w
      else w.(reg := Add(w.reg, k, t), kinds := w.kinds[t := k], unfinished := w.unfinished + {t})
    case Finish(t) => w.(unfinished := w.unfinished - {t})
    case DoneCallback(t) => if t in w.unfinished then w else w.(reg := Discard(w.reg, t))
    case BeginDrain(d) =>
      if d in w.drains then w else PutDrain(w, d, TakePopup(Turn(w.reg, StartDrain(w))))
    case Resume(d) =>
      if d in w.drains then PutDrain(w, d, ResumeDrain(Turn(w.reg, w.drains[d]), w.unfinished)) else w
    case CancelDrain(d) => if d in w.drains then PutDrain(w, d, AbortDrain(Turn(w.reg, w.drains[d]))) else w
  }

  function Run(w: World, events: seq<Event>): World
    decreases |events|
  {
    if events == [] then w else Run(Step(w, events[0]), events[1..])
  }

  const FRESH := World(Registries({}, {}, {}, {}), map[], {}, map[])

  // ---- the invariant ----

  function Rank(k: Kind): nat {
    match k case Popup => 0 case Eviction => 1 case Bounded => 2 case RuntimeClose => 3
  }

  // How many registries a drain has surely taken, counting the one it is gathering.
  function Taken(s: Stage): nat {
    match s
    case Gathering(k) => Rank(k) + 1
    case Aborting(k) => Rank(k) + 1
    case Stopped => 0
    case _ => 4
  }

  function HeldKind(s: Stage): Kind { if s.Gathering? || s.Aborting? then s.kind else RuntimeClose }

  predicate Ended(s: Stage) { s.Returned? || s.Stopped? }

  // What a drain took from the registries and did not put back.
  function Owned(d: Drain): set<TaskId> { d.held + d.dropped }

  predicate InHands(drains: map<nat, Drain>, t: TaskId) { exists d :: d in drains && t in Owned(drains[d]) }

  function AllOf(r: Registries): set<TaskId> { r.popup + r.eviction + r.bounded + r.runtimeClose }

  predicate Tracked(r: Registries, t: TaskId) { t in AllOf(r) }

  // No task is in two places.
  predicate Apart(reg: Registries, drains: map<nat, Drain>) {
    && (forall d, t :: d in drains && t in Owned(drains[d]) ==> !Tracked(reg, t))
    && (forall d, e, t :: d in drains && e in drains && t in Owned(drains[d]) && t in Owned(drains[e]) ==> d == e)
  }

  predicate DrainOk(w: World, d: Drain) {
    && (forall t :: t in Owned(d) ==> t in w.kinds && w.kinds[t] == HeldKind(d.stage))
    && (Ended(d.stage) ==> d.held == {}) && (d.dropped != {} ==> d.stage.Stopped?)
    && (d.stage.Aborting? ==> d.stage.kind != RuntimeClose)
    && d.before <= w.kinds.Keys
    && (forall t :: t in d.before && Rank(w.kinds[t]) < Taken(d.stage) && w.kinds[t] != RuntimeClose ==>
          t !in Registry(w.reg, w.kinds[t]))
  }

  predicate Inv(w: World) {
    && w.unfinished <= w.kinds.Keys
    && (forall k, t :: t in Registry(w.reg, k) ==> t in w.kinds && w.kinds[t] == k)
    && (forall t :: t in w.unfinished ==> t in Registry(w.reg, w.kinds[t]) || InHands(w.drains, t))
    && Apart(w.reg, w.drains)
    && (forall d :: d in w.drains ==> DrainOk(w, w.drains[d]))
  }

  // Taking registries from rank `from` on: those passed are empty, and the first non-empty
  // one moves into the drain's hands.
  predicate Takes(w: Turn, from: nat, v: Turn) {
    && v.drain.before == w.drain.before && v.drain.dropped == w.drain.dropped
    && (v.drain.stage.Gathering? || v.drain.stage.Returned?)
    && (forall k :: Registry(v.reg, k) == if v.drain.stage == Gathering(k) then {} else Registry(w.reg, k))
    && v.drain.held == (if v.drain.stage.Gathering? then Registry(w.reg, v.drain.stage.kind) else {})
    && (forall k :: from <= Rank(k) < Taken(v.drain.stage) ==> Registry(v.reg, k) == {})
    && Taken(v.drain.stage) > from
  }

  lemma TakesClose(w: Turn)
    ensures Takes(w, 3, TakeClose(w))
  {
  }

  lemma TakesBounded(w: Turn)
    ensures Takes(w, 2, TakeBounded(w))
  {
    TakesClose(w);
  }

  lemma TakesEviction(w: Turn)
    ensures Takes(w, 1, TakeEviction(w))
  {
    TakesBounded(w);
  }

  lemma TakesPopup(w: Turn)
    ensures Takes(w, 0, TakePopup(w))
  {
    TakesEviction(w);
  }

  lemma RegistryAfter(r: Registries, k: Kind, t: TaskId)
    ensures forall o :: Registry(Discard(r, t), o) == Registry(r, o) - {t}
    ensures forall o :: Registry(Add(r, k, t), o) == if o == k then Registry(r, o) + {t} else Registry(r, o)
    ensures AllOf(Discard(r, t)) == AllOf(r) - {t} && AllOf(Add(r, k, t)) == AllOf(r) + {t}
  {
  }

  lemma TakenGoesOn(w: Turn, from: nat, v: Turn, k: Kind, t: TaskId)
    requires Takes(w, from, v) && t in Registry(w.reg, k)
    ensures t in Registry(v.reg, k) || t in v.drain.held
  {
  }

  // Drain `d` goes from `was` to `now` and the registries from `reg` to `after`: what it now
  // owns it owned or took, and what is newly registered it owned.
  predicate Moves(reg: Registries, was: Drain, after: Registries, now: Drain) {
    && (forall t :: t in Owned(now) ==> !Tracked(after, t) && (t in Owned(was) || Tracked(reg, t)))
    && (forall t :: t in AllOf(after) ==> Tracked(reg, t) || t in Owned(was))
  }

  lemma ApartPut(reg: Registries, drains: map<nat, Drain>, d: nat, was: Drain, after: Registries, now: Drain)
    requires Apart(reg, drains) && Moves(reg, was, after, now)
    requires if d in drains then was == drains[d] else Owned(was) == {}
    ensures Apart(after, drains[d := now])
  {
  }

  // No unfinished task goes astray while registries are taken.
  lemma StillHeld(w: World, d: nat, was: Drain, from: nat, v: Turn, t: TaskId)
    requires Inv(w) && t in w.unfinished && Takes(Turn(w.reg, was), from, v)
    requires was.held * w.unfinished == {} && (d in w.drains ==> was == w.drains[d])
    ensures t in Registry(v.reg, w.kinds[t]) || InHands(w.drains[d := v.drain], t)
  {
    HandsAfter(w, d, v.drain, t);
    if t in Registry(w.reg, w.kinds[t]) {
      TakenGoesOn(Turn(w.reg, was), from, v, w.kinds[t], t);
    } else {
      assert t !in was.held * w.unfinished;
      assert InHands(w.drains, t);
    }
  }

  lemma TakesMoves(w: Turn, kinds: map<TaskId, Kind>, from: nat, v: Turn)
    requires Takes(w, from, v) && w.drain.dropped == {}
    requires forall k, t :: t in Registry(w.reg, k) ==> t in kinds && kinds[t] == k
    ensures Moves(w.reg, w.drain, v.reg, v.drain)
  {
    forall t | t in v.drain.held ensures !Tracked(v.reg, t) && Tracked(w.reg, t) {
      TrackedWhere(w.reg, t);
      TrackedWhere(v.reg, t);
      var taken := v.drain.stage.kind;
      assert t in Registry(w.reg, taken) && v.drain.stage == Gathering(taken);
      forall k ensures t !in Registry(v.reg, k) {
        if t in Registry(w.reg, k) { assert kinds[t] == k && kinds[t] == taken; }
      }
    }
    forall t | Tracked(v.reg, t) ensures Tracked(w.reg, t) {
      TrackedWhere(w.reg, t);
      TrackedWhere(v.reg, t);
    }
  }

  lemma TrackedWhere(r: Registries, t: TaskId)
    ensures Tracked(r, t) <==> exists k :: t in Registry(r, k)
  {
    assert t in r.popup ==> t in Registry(r, Popup);
    assert t in r.eviction ==> t in Registry(r, Eviction);
    assert t in r.bounded ==> t in Registry(r, Bounded);
    assert t in r.runtimeClose ==> t in Registry(r, RuntimeClose);
  }

  // A drain that took registries `from` on, after finishing with everything it held.
  lemma TakeKeepsInv(w: World, d: nat, was: Drain, from: nat, v: Turn)
    requires Inv(w) && (if d in w.drains then was == w.drains[d] else was == StartDrain(w) && from == 0)
    requires Takes(Turn(w.reg, was), from, v) && was.held * w.unfinished == {} && was.dropped == {}
    requires d in w.drains ==> Taken(was.stage) == from
    ensures Inv(PutDrain(w, d, v))
  {
    var w' := PutDrain(w, d, v);
    forall t | t in w'.unfinished ensures t in Registry(w'.reg, w'.kinds[t]) || InHands(w'.drains, t) {
      StillHeld(w, d, was, from, v, t);
    }
    TakesMoves(Turn(w.reg, was), w.kinds, from, v);
    ApartPut(w.reg, w.drains, d, was, v.reg, v.drain);
    forall o | o in w'.drains && o != d ensures DrainOk(w', w'.drains[o]) { assert DrainOk(w, w.drains[o]); }
    assert DrainOk(w', v.drain) by {
      if d in w.drains { assert DrainOk(w, was); }
    }
  }

  // Replacing drain `d` keeps what other drains own.
  lemma HandsAfter(w: World, d: nat, now: Drain, t: TaskId)
    ensures InHands(w.drains, t) && !(d in w.drains && t in Owned(w.drains[d])) ==> InHands(w.drains[d := now], t)
    ensures t in Owned(now) ==> InHands(w.drains[d := now], t)
  {
    if InHands(w.drains, t) && !(d in w.drains && t in Owned(w.drains[d])) {
      var o :| o in w.drains && t in Owned(w.drains[o]);
      assert t in Owned(w.drains[d := now][o]);
    }
    if t in Owned(now) { assert t in Owned(w.drains[d := now][d]); }
  }

  lemma ResumeKeepsInv(w: World, d: nat)
    requires Inv(w) && d in w.drains
    ensures Inv(Step(w, Resume(d)))
  {
    var was := w.drains[d];
    var turn := Turn(w.reg, was);
    var v := ResumeDrain(turn, w.unfinished);
    assert DrainOk(w, was);
    if v == turn {
      assert w.drains[d := was] == w.drains;
    } else if was.stage.Gathering? && was.stage.kind != RuntimeClose {
      ResumeTakes(turn, w.unfinished);
      TakeKeepsInv(w, d, was, Rank(was.stage.kind) + 1, v);
    } else {
      forall t | t in Owned(was) ensures !Tracked(w.reg, t) { assert t in Owned(w.drains[d]); }
      ResumeLetsGo(turn, w.unfinished);
      LetGoKeepsInv(w, d, was, v);
    }
  }

  lemma ResumeTakes(w: Turn, unfinished: set<TaskId>)
    requires w.drain.stage.Gathering? && w.drain.stage.kind != RuntimeClose && w.drain.held * unfinished == {}
    ensures Takes(w, Rank(w.drain.stage.kind) + 1, ResumeDrain(w, unfinished))
  {
    TakesEviction(w);
    TakesBounded(w);
    TakesClose(w);
  }

  // The registries keep what they hold, but for runtime closes that the drain puts back; the
  // drain owns no more than before; and what it no longer owns is finished or put back.
  predicate LetsGo(w: Turn, unfinished: set<TaskId>, v: Turn) {
    && v.drain.before == w.drain.before
    && w.reg.runtimeClose <= v.reg.runtimeClose <= w.reg.runtimeClose + w.drain.held
    && v.reg == w.reg.(runtimeClose := v.reg.runtimeClose)
    && (v.reg != w.reg ==> HeldKind(w.drain.stage) == RuntimeClose)
    && Owned(v.drain) <= Owned(w.drain) && Owned(v.drain) !! v.reg.runtimeClose
    && (forall t :: t in Owned(w.drain) && t in unfinished ==> t in Owned(v.drain) || t in v.reg.runtimeClose)
    && (Owned(v.drain) != {} ==> HeldKind(v.drain.stage) == HeldKind(w.drain.stage))
    && Taken(v.drain.stage) <= Taken(w.drain.stage)
    && (Ended(v.drain.stage) ==> v.drain.held == {}) && (v.drain.dropped != {} ==> v.drain.stage.Stopped?)
    && (v.drain.stage.Aborting? ==> v.drain.stage.kind != RuntimeClose)
  }

  lemma ResumeLetsGo(w: Turn, unfinished: set<TaskId>)
    requires w.drain.stage == Gathering(RuntimeClose) || w.drain.stage.Cancelling? || w.drain.stage.Aborting?
    requires w.drain.dropped == {} && (w.drain.stage.Aborting? ==> w.drain.stage.kind != RuntimeClose)
    requires forall t :: t in Owned(w.drain) ==> !Tracked(w.reg, t)
    ensures LetsGo(w, unfinished, ResumeDrain(w, unfinished))
  {
    assert forall t :: t in Owned(w.drain) ==> t !in w.reg.runtimeClose;
  }

  lemma LetGoMoves(w: Turn, unfinished: set<TaskId>, v: Turn)
    requires LetsGo(w, unfinished, v) && forall t :: t in Owned(w.drain) ==> !Tracked(w.reg, t)
    ensures Moves(w.reg, w.drain, v.reg, v.drain)
  {
  }

  // The other steps of a drain: it narrows what it holds, puts it back, or drops it.
  lemma LetGoKeepsInv(w: World, d: nat, was: Drain, v: Turn)
    requires Inv(w) && d in w.drains && was == w.drains[d] && LetsGo(Turn(w.reg, was), w.unfinished, v)
    ensures Inv(PutDrain(w, d, v))
  {
    var w' := PutDrain(w, d, v);
    assert DrainOk(w, was);
    forall t | t in Owned(was) ensures !Tracked(w.reg, t) { assert t in Owned(w.drains[d]); }
    LetGoMoves(Turn(w.reg, was), w.unfinished, v);
    ApartPut(w.reg, w.drains, d, was, v.reg, v.drain);
    forall k, t | t in Registry(w'.reg, k) ensures t in w'.kinds && w'.kinds[t] == k {
      if t !in Registry(w.reg, k) { assert t in was.held && k == RuntimeClose; }
    }
    forall t | t in w'.unfinished ensures t in Registry(w'.reg, w'.kinds[t]) || InHands(w'.drains, t) {
      HandsAfter(w, d, v.drain, t);
      if t in Owned(was) && t !in Owned(v.drain) { assert t in Registry(v.reg, RuntimeClose); }
    }
    forall o | o in w'.drains ensures DrainOk(w', w'.drains[o]) {
      if o != d { assert DrainOk(w, w.drains[o]); }
    }
  }

  lemma CancelKeepsInv(w: World, d: nat)
    requires Inv(w) && d in w.drains
    ensures Inv(Step(w, CancelDrain(d)))
  {
    var was := w.drains[d];
    var v := AbortDrain(Turn(w.reg, was));
    assert DrainOk(w, was);
    forall t | t in Owned(was) ensures !Tracked(w.reg, t) { assert t in Owned(w.drains[d]); }
    if v == Turn(w.reg, was) {
      assert w.drains[d := was] == w.drains;
    } else {
      assert forall t :: t in Owned(was) ==> t !in w.reg.runtimeClose;
      LetGoKeepsInv(w, d, was, v);
    }
  }

  lemma StepKeepsInv(w: World, e: Event)
    requires Inv(w)
    ensures Inv(Step(w, e))
  {
    var w' := Step(w, e);
    match e
    case Resume(d) => if d in w.drains { ResumeKeepsInv(w, d); }
    case CancelDrain(d) => if d in w.drains { CancelKeepsInv(w, d); }
    case BeginDrain(d) =>
      if d !in w.drains {
        var start := StartDrain(w);
        TakesPopup(Turn(w.reg, start));
        TakeKeepsInv(w, d, start, 0, TakePopup(Turn(w.reg, start)));
      }
    case Register(t, k) => if t !in w.kinds { RegisterKeepsInv(w, t, k); }
    case Finish(_) => forall d | d in w'.drains ensures DrainOk(w', w'.drains[d]) { assert DrainOk(w, w.drains[d]); }
    case DoneCallback(t) => if t !in w.unfinished { DiscardKeepsInv(w, t); }
  }

  // The registries change, the drains do not.
  lemma ApartReg(w: World, after: Registries)
    requires forall d :: d in w.drains ==> DrainOk(w, w.drains[d])
    requires Apart(w.reg, w.drains) && forall t :: t in AllOf(after) ==> Tracked(w.reg, t) || t !in w.kinds
    ensures Apart(after, w.drains)
  {
    forall d, t | d in w.drains && t in Owned(w.drains[d]) ensures !Tracked(after, t) {
      assert DrainOk(w, w.drains[d]);
    }
  }

  lemma RegisterKeepsInv(w: World, t: TaskId, k: Kind)
    requires Inv(w) && t !in w.kinds
    ensures Inv(Step(w, Register(t, k)))
  {
    var w' := Step(w, Register(t, k));
    RegistryAfter(w.reg, k, t);
    ApartReg(w, w'.reg);
    forall d | d in w'.drains ensures DrainOk(w', w'.drains[d]) { NewTaskDrainOk(w, t, k, w.drains[d]); }
    forall u | u in w'.unfinished ensures u in Registry(w'.reg, w'.kinds[u]) || InHands(w'.drains, u) {
      assert u == t || u in w.unfinished;
    }
  }

  lemma NewTaskDrainOk(w: World, t: TaskId, k: Kind, d: Drain)
    requires DrainOk(w, d) && t !in w.kinds
    ensures DrainOk(Step(w, Register(t, k)), d)
  {
    RegistryAfter(w.reg, k, t);
  }

  lemma DiscardKeepsInv(w: World, t: TaskId)
    requires Inv(w) && t !in w.unfinished
    ensures Inv(Step(w, DoneCallback(t)))
  {
    var w' := Step(w, DoneCallback(t));
    RegistryAfter(w.reg, Popup, t);
    ApartReg(w, w'.reg);
    forall d | d in w'.drains ensures DrainOk(w', w'.drains[d]) { DiscardDrainOk(w, t, w.drains[d]); }
    forall k, u | u in Registry(w'.reg, k) ensures u in w'.kinds && w'.kinds[u] == k { assert u in Registry(w.reg, k); }
    forall u | u in w'.unfinished ensures u in Registry(w'.reg, w'.kinds[u]) || InHands(w'.drains, u) {
      DiscardKeepsPlace(w, t, u);
    }
  }

  lemma DiscardKeepsPlace(w: World, t: TaskId, u: TaskId)
    requires Inv(w) && u in w.unfinished && u != t
    ensures u in Registry(Discard(w.reg, t), w.kinds[u]) || InHands(w.drains, u)
  {
    RegistryAfter(w.reg, Popup, t);
  }

  lemma DiscardDrainOk(w: World, t: TaskId, d: Drain)
    requires DrainOk(w, d) && t !in w.unfinished
    ensures DrainOk(Step(w, DoneCallback(t)), d)
  {
    RegistryAfter(w.reg, Popup, t);
  }

  // ---- what a drain leaves behind ----

  lemma {:induction false} RunKeepsInv(w: World, events: seq<Event>)
    requires Inv(w)
    ensures Inv(Run(w, events))
    decreases |events|
  {
    if events != [] {
      StepKeepsInv(w, events[0]);
      RunKeepsInv(Step(w, events[0]), events[1..]);
    }
  }

  // In the hands of a drain that has not ended.
  predicate UnderDrain(w: World, t: TaskId) { exists d :: d in w.drains && t in w.drains[d].held }

  // Held by a drain when that drain was cancelled in a wait for runtime closes.
  predicate Dropped(w: World, t: TaskId) { exists d :: d in w.drains && t in w.drains[d].dropped }

  /** Dropping is exactly that: a step lets a drain drop task t if and only if it cancels that
      drain while it waits for runtime closes with t in its hands. */
  lemma DropsIff(events: seq<Event>, e: Event, d: nat, t: TaskId)
    requires d in Run(FRESH, events).drains && t !in Run(FRESH, events).drains[d].dropped
    ensures var w := Run(FRESH, events);
      t in Step(w, e).drains[d].dropped <==>
      e == CancelDrain(d) && t in w.drains[d].held && HeldKind(w.drains[d].stage) == RuntimeClose
  {
    RunKeepsInv(FRESH, events);
    var w := Run(FRESH, events);
    assert DrainOk(w, w.drains[d]);
    TurnDrops(Turn(w.reg, w.drains[d]), w.unfinished, t);
  }

  lemma TurnDrops(w: Turn, unfinished: set<TaskId>, t: TaskId)
    requires t !in w.drain.dropped && (Ended(w.drain.stage) ==> w.drain.held == {})
    requires w.drain.stage.Aborting? ==> w.drain.stage.kind != RuntimeClose
    ensures t !in ResumeDrain(w, unfinished).drain.dropped
    ensures t in AbortDrain(w).drain.dropped <==> t in w.drain.held && HeldKind(w.drain.stage) == RuntimeClose
  {
    TakesEviction(w);
    TakesBounded(w);
    TakesClose(w);
  }

  /** In every state an unfinished task is in the registry it was put in or in the hands of a
      drain that has not ended, if and only if no drain was cancelled in a wait for runtime
      closes while it held that task; and it is in one such place only. */
  lemma NothingIsLostIff(events: seq<Event>, t: TaskId)
    requires t in Run(FRESH, events).unfinished
    ensures var w := Run(FRESH, events);
      && t in w.kinds && (t in Registry(w.reg, w.kinds[t]) || UnderDrain(w, t) <==> !Dropped(w, t))
      && !(Tracked(w.reg, t) && UnderDrain(w, t))
      && forall d, o :: d in w.drains && o in w.drains && t in w.drains[d].held && t in w.drains[o].held ==> d == o
  {
    RunKeepsInv(FRESH, events);
    var w := Run(FRESH, events);
    PlacesOf(w, t);
  }

  lemma PlacesOf(w: World, t: TaskId)
    requires Inv(w) && t in w.unfinished
    ensures t in Registry(w.reg, w.kinds[t]) || UnderDrain(w, t) <==> !Dropped(w, t)
    ensures !(Tracked(w.reg, t) && UnderDrain(w, t))
    ensures forall d, o :: d in w.drains && o in w.drains && t in w.drains[d].held && t in w.drains[o].held ==> d == o
  {
    forall d | d in w.drains && t in Owned(w.drains[d])
      ensures !Tracked(w.reg, t) && (t in w.drains[d].held <==> t !in w.drains[d].dropped)
    {
      assert DrainOk(w, w.drains[d]);
    }
    if t in Registry(w.reg, w.kinds[t]) {
      assert Tracked(w.reg, t);
    } else {
      var d :| d in w.drains && t in Owned(w.drains[d]);
      forall o | o in w.drains && t in Owned(w.drains[o]) ensures o == d {}
    }
  }

  /** Once a drain has returned, a task registered before it began, or any runtime close, is
      finished or tracked as a runtime close exactly when it is not an unfinished task that
      another drain still holds or has dropped. */
  lemma DrainLeavesIff(events: seq<Event>, d: nat, t: TaskId)
    requires var w := Run(FRESH, events);
      && d in w.drains && w.drains[d].stage.Returned? && t in w.kinds
      && (t in w.drains[d].before || w.kinds[t] == RuntimeClose)
    ensures var w := Run(FRESH, events);
      t !in w.unfinished || t in w.reg.runtimeClose <==> !(t in w.unfinished && (UnderDrain(w, t) || Dropped(w, t)))
  {
    RunKeepsInv(FRESH, events);
    var w := Run(FRESH, events);
    assert DrainOk(w, w.drains[d]);
    if t in w.unfinished {
      PlacesOf(w, t);
      assert t in w.reg.runtimeClose ==> t in Registry(w.reg, RuntimeClose);
    }
  }

  /** With every drain returned: finished, or still tracked as a runtime close. */
  lemma LoneDrainFinishesOrTracks(events: seq<Event>, d: nat, t: TaskId)
    requires var w := Run(FRESH, events);
      && d in w.drains && t in w.kinds && (t in w.drains[d].before || w.kinds[t] == RuntimeClose)
      && forall o :: o in w.drains ==> w.drains[o].stage.Returned?
    ensures var w := Run(FRESH, events); t !in w.unfinished || t in w.reg.runtimeClose
  {
    RunKeepsInv(FRESH, events);
    var w := Run(FRESH, events);
    forall o | o in w.drains ensures Owned(w.drains[o]) == {} { assert DrainOk(w, w.drains[o]); }
    DrainLeavesIff(events, d, t);
  }

  // ---- a drain comes to an end ----

  function StagesLeft(s: Stage): nat {
    match s
    case Gathering(k) => 5 - Rank(k)
    case Aborting(_) | Cancelling => 1
    case Returned | Stopped => 0
  }

  /** A drain goes on from a gather if and only if all it holds has finished; from a wait for runtime
      closes it always goes on; and every time it goes on it comes nearer to its end. */
  lemma ResumesIff(w: Turn, unfinished: set<TaskId>)
    requires !Ended(w.drain.stage) && (w.drain.stage.Aborting? ==> w.drain.stage.kind != RuntimeClose)
    ensures var v := ResumeDrain(w, unfinished);
      var waits := HeldKind(w.drain.stage) != RuntimeClose && w.drain.held * unfinished != {};
      if waits then v == w else StagesLeft(v.drain.stage) < StagesLeft(w.drain.stage)
  {
    TakesEviction(w);
    TakesBounded(w);
    TakesClose(w);
  }

  /** Once every task has finished, resuming a drain again and again ends it. */
  lemma {:induction false} DrainEnds(w: World, d: nat) returns (more: seq<Event>)
    requires Inv(w) && d in w.drains && w.unfinished == {}
    ensures d in Run(w, more).drains && Ended(Run(w, more).drains[d].stage)
    ensures forall e :: e in more ==> e == Resume(d)
    decreases StagesLeft(w.drains[d].stage)
  {
    more := [];
    if !Ended(w.drains[d].stage) {
      assert DrainOk(w, w.drains[d]);
      ResumesIff(Turn(w.reg, w.drains[d]), w.unfinished);
      StepKeepsInv(w, Resume(d));
      var rest := DrainEnds(Step(w, Resume(d)), d);
      more := [Resume(d)] + rest;
      assert more[1..] == rest;
    }
  }

  lemma RunOfThree(a: Event, b: Event, c: Event)
    ensures Run(FRESH, [a, b, c]) == Step(Step(Step(FRESH, a), b), c)
  {
    var events := [a, b, c];
    assert events[1..] == [b, c] && events[1..][1..] == [c] && events[1..][1..][1..] == [];
    var w := Step(Step(FRESH, a), b);
    assert Run(w, [c]) == Run(Step(w, c), [c][1..]) == Step(w, c);
  }

  /** Two drains at once: the second returns while a task registered before it is still
      unfinished and in no registry, because the first holds it. */
  lemma SecondDrainReturnsEarly()
    ensures exists events :: var w := Run(FRESH, events);
      && 1 in w.drains && w.drains[1] == Drain(Returned, {}, {}, {7}) && 7 in w.unfinished
      && forall k :: 7 !in Registry(w.reg, k)
  {
    RunOfThree(Register(7, Bounded), BeginDrain(0), BeginDrain(1));
  }

  /** A drain cancelled while it waits for a runtime close leaves it running, tracked by
      nothing. */
  lemma CancelledDrainLosesTask()
    ensures exists events :: var w := Run(FRESH, events);
      7 in w.unfinished && !Tracked(w.reg, 7) && forall d :: d in w.drains ==> 7 !in w.drains[d].held
  {
    RunOfThree(Register(7, RuntimeClose), BeginDrain(0), CancelDrain(0));
  }

  // ---- the module's state and functions ----

  // How the bounded wait of await_without_cancelling ends.
  datatype WaitEnd = Succeeded | Failed | WasCancelled | TimedOut | Interrupted(finished: bool)

  // The task is still running when await_without_cancelling gives up on it.
  predicate LeavesPending(e: WaitEnd) { e.TimedOut? || (e.Interrupted? && !e.finished) }

  datatype Answer = Answer(closed: bool) | Reraised

  class BackgroundTaskRegistry {
    var popupGuardTasks: set<TaskId>
    var evictionCleanupTasks: set<TaskId>
    var boundedCleanupTasks: set<TaskId>
    var runtimeCloseTasks: set<TaskId>
    var pendingCallbacks: seq<TaskId>     // calls of on_pending_done, in order

    function View(): Registries
      reads this
    {
      Registries(popupGuardTasks, evictionCleanupTasks, boundedCleanupTasks, runtimeCloseTasks)
    }

    constructor ()
      ensures View() == FRESH.reg && pendingCallbacks == []
    {
      popupGuardTasks, evictionCleanupTasks, boundedCleanupTasks, runtimeCloseTasks := {}, {}, {}, {};
      pendingCallbacks := [];
    }

    method RegisterPopupGuardTask(t: TaskId)
      modifies this`popupGuardTasks
      ensures View() == Add(old(View()), Popup, t)
    {
      popupGuardTasks := popupGuardTasks + {t};
    }

    method RegisterEvictionCleanupTask(t: TaskId)
      modifies this`evictionCleanupTasks
      ensures View() == Add(old(View()), Eviction, t)
    {
      evictionCleanupTasks := evictionCleanupTasks + {t};
    }

    method RegisterCleanupTask(t: TaskId, preserve: bool)
      modifies this`boundedCleanupTasks, this`runtimeCloseTasks
      ensures View() == Add(old(View()), if preserve then RuntimeClose else Bounded, t)
    {
      if preserve {
        runtimeCloseTasks := runtimeCloseTasks + {t};
      } else {
        boundedCleanupTasks := boundedCleanupTasks + {t};
      }
    }

    // await_without_cancelling for the new task `t`, once its bounded wait has ended: a task
    // left running is in exactly one cleanup registry and its callback ran exactly once; any
    // other task is in none and its callback never ran.
    method AwaitWithoutCancelling(t: TaskId, end: WaitEnd, onPendingDone: bool, preservePending: bool)
      returns (r: Answer)
      requires forall k :: t !in Registry(View(), k)
      modifies this
      ensures forall k :: Registry(View(), k) - {t} == Registry(old(View()), k)
      ensures forall k ::
                t in Registry(View(), k) <==>
                LeavesPending(end) && k == if preservePending then RuntimeClose else Bounded
      ensures Tracked(View(), t) <==> end == TimedOut || end == Interrupted(false)
      ensures pendingCallbacks == old(pendingCallbacks) + if Tracked(View(), t) && onPendingDone then [t] else []
      ensures r == if end.Interrupted? then Reraised else Answer(end.Succeeded?)
    {
      assert t !in Registry(View(), Popup) && t !in Registry(View(), Eviction);
      assert t !in Registry(View(), Bounded) && t !in Registry(View(), RuntimeClose);
      match end
      case Interrupted(finished) =>
        if !finished {
          RegisterCleanupTask(t, preservePending);
          if onPendingDone { pendingCallbacks := pendingCallbacks + [t]; }
        }
        r := Reraised;
      case TimedOut =>
        RegisterCleanupTask(t, preservePending);
        if onPendingDone { pendingCallbacks := pendingCallbacks + [t]; }
        r := Answer(false);
      case WasCancelled | Failed => r := Answer(false);
      case Succeeded => r := Answer(true);
    }

    method DoneCallback(t: TaskId)
      modifies this
      ensures View() == Discard(old(View()), t) && pendingCallbacks == old(pendingCallbacks)
    {
      popupGuardTasks := popupGuardTasks - {t};
      evictionCleanupTasks := evictionCleanupTasks - {t};
      boundedCleanupTasks := boundedCleanupTasks - {t};
      runtimeCloseTasks := runtimeCloseTasks - {t};
    }

    // drain_browser_background_tasks from the given registry on, up to its next wait.
    method TakeFrom(k: Kind, d: Drain) returns (v: Drain)
      modifies this
      ensures pendingCallbacks == old(pendingCallbacks)
      ensures var w := Turn(old(View()), d);
        Turn(View(), v) == match k
                           case Popup => TakePopup(w)
                           case Eviction => TakeEviction(w)
                           case Bounded => TakeBounded(w)
                           case RuntimeClose => TakeClose(w)
    {
      if k == Popup && popupGuardTasks != {} {
        v := d.(stage := Gathering(Popup), held := popupGuardTasks);
        popupGuardTasks := {};
      } else if Rank(k) <= 1 && evictionCleanupTasks != {} {
        v := d.(stage := Gathering(Eviction), held := evictionCleanupTasks);
        evictionCleanupTasks := {};
      } else if Rank(k) <= 2 && boundedCleanupTasks != {} {
        v := d.(stage := Gathering(Bounded), held := boundedCleanupTasks);
        boundedCleanupTasks := {};
      } else if runtimeCloseTasks != {} {
        v := d.(stage := Gathering(RuntimeClose), held := runtimeCloseTasks);
        runtimeCloseTasks := {};
      } else {
        v := d.(stage := Returned, held := {});
      }
    }

    method ContinueDrain(d: Drain, unfinished: set<TaskId>) returns (v: Drain)
      modifies this
      ensures Turn(View(), v) == ResumeDrain(Turn(old(View()), d), unfinished)
    {
      v := d;
      var pending := d.held * unfinished;
      match d.stage
      case Gathering(RuntimeClose) =>
        v := if pending == {} then d.(stage := Returned, held := {}) else d.(stage := Cancelling, held := pending);
      case Gathering(k) =>
        if pending == {} {
          v := TakeFrom(if k == Popup then Eviction else if k == Eviction then Bounded else RuntimeClose, d);
        }
      case Cancelling =>
        runtimeCloseTasks := runtimeCloseTasks + pending;
        v := d.(stage := Returned, held := {});
      case Aborting(_) => if pending == {} { v := d.(stage := Stopped, held := {}, dropped := {}); }
      case Returned | Stopped =>
    }

    // CancelledError is raised in the drain. A wait for runtime closes ends with what it held
    // dropped; any other gather keeps its tasks and goes on. The registries stay as they are.
    method CancelDrain(d: Drain) returns (v: Drain)
      ensures Turn(View(), v) == AbortDrain(Turn(View(), d))
      ensures !Ended(d.stage) && HeldKind(d.stage) == RuntimeClose && !d.stage.Aborting? ==>
        v.stage.Stopped? && v.held == {} && v.dropped == d.held
      ensures d.stage.Gathering? && d.stage.kind != RuntimeClose ==>
        v == d.(stage := Aborting(d.stage.kind))
      ensures Ended(d.stage) || d.stage.Aborting? ==> v == d
    {
      match d.stage
      case Gathering(RuntimeClose) | Cancelling => v := d.(stage := Stopped, held := {}, dropped := d.held);
      case Gathering(k) => v := d.(stage := Aborting(k));
      case _ => v := d;
    }
  }
}
