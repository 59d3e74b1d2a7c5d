/**
 The shared budget of BrowserNetworkCapture: several workers take responses from a
 bounded queue, reserve a count and a byte budget, read the body, and then release or
 commit. No critical section of the capture lock contains a suspension, so each one is
 part of an atomic step; only the body read separates reserving from settling.
 */
module CaptureLedger {
  import opened Wrappers

  // ---- settings and responses ----

  datatype Limits = Limits(maxPayloads: int, maxPayloadBytes: int, totalBytes: int)

  function AtLeast1(n: int): nat { if n < 1 then 1 else n }

  function MaxPayloads(l: Limits): nat { AtLeast1(l.maxPayloads) }

  function TotalBytes(l: Limits): nat { AtLeast1(l.totalBytes) }

  function QueueSize(l: Limits): nat { AtLeast1(l.maxPayloads * 2) }

  // What the capture decisions look at: whether type and URL qualify, the parsed
  // content-length header if it is an integer, and whether the endpoint is high-value.
  datatype Response = Response(supported: bool, noise: bool, chunked: bool, lengthHeader: Option<int>, highValue: bool)

  const HIGH_VALUE_MULTIPLIER := 4

  function ByteBudget(l: Limits, r: Response): nat {
    var base := AtLeast1(l.maxPayloadBytes);
    var budget := if r.highValue then base * HIGH_VALUE_MULTIPLIER else base;
    if budget < TotalBytes(l) then budget else TotalBytes(l)
  }

  function ContentLength(r: Response): Option<nat> {
    match r.lengthHeader
    case None => None
    case Some(n) => Some(Max0(n))
  }

  predicate ShouldCapture(l: Limits, r: Response, capturedCount: int, capturedBytes: int) {
    var length := if r.chunked then None else ContentLength(r);
    && r.supported
    && capturedCount < MaxPayloads(l)
    && !r.noise
    && (length.Some? ==> length.value <= ByteBudget(l, r) && capturedBytes + length.value <= TotalBytes(l))
    && capturedBytes < TotalBytes(l)
  }

  // What a response reserves: its declared length, or nothing.
  function Reservation(r: Response): nat {
    if r.chunked || r.lengthHeader.None? then 0 else ContentLength(r).value
  }

  // ---- state ----

  datatype Worker = Idle | Reading(response: Response, reserved: nat) | Gone

  datatype Payload = Payload(response: Response, length: nat)

  // Fields of the capture object, then its workers, then what became of the responses
  // that no counter of the object records.
  datatype Capture = Capture(
    limits: Limits,
    payloads: seq<Payload>,
    capturedBytes: int,
    pending: int,
    reservedBytes: int,
    malformed: nat,
    readFailures: nat,
    closedFailures: nat,
    oversized: nat,
    readTimeouts: nat,
    dropped: nat,
    queue: seq<Option<Response>>,    // None: the sentinel that ends a worker
    unfinished: int,                 // queue items not yet marked done
    closing: bool,
    workers: seq<Worker>,
    fate: Fate)

  datatype Fate = Fate(
    delivered: nat,
    ignored: nat,
    refused: nat,
    discarded: nat,
    drained: nat,
    lost: nat,
    lostBytes: nat)

  datatype Decoding = Decodes | Undecodable | DecodeRaised | RecordRaised

  datatype ReadResult =
    | ReaderRaised
    | ResponseClosed
    | ReadTimedOut
    | ReadError
    | NoBody
    | Body(length: nat, decoding: Decoding)

  datatype Event =
    | Deliver(response: Response)
    | Take(worker: nat)
    | Settle(worker: nat, result: ReadResult)
    | BeginClose
    | PutSentinel
    | Drain
    | CancelWorker(worker: nat)

  // ---- operations ----

  function Schedule(c: Capture, r: Response): Capture {
    var c1 := c.(fate := c.fate.(delivered := c.fate.delivered + 1));
    if c.closing then c1.(fate := c1.fate.(ignored := c1.fate.ignored + 1))
    else if |c.queue| >= QueueSize(c.limits) then c1.(dropped := c.dropped + 1)
    else c1.(queue := c.queue + [Some(r)], unfinished := c.unfinished + 1)
  }

  function TaskDone(c: Capture): Capture { c.(unfinished := c.unfinished - 1) }

  function WithWorker(c: Capture, w: nat, to: Worker): Capture
    requires w < |c.workers|
  {
    c.(workers := c.workers[w := to])
  }

  // queue.get returns: reserve, or be done with the item.
  function TakeNext(c: Capture, w: nat): Capture
    requires w < |c.workers| && c.queue != []
  {
    var c1 := c.(queue := c.queue[1..]);
    match c.queue[0]
    case None => TaskDone(WithWorker(c1, w, Gone))
    case Some(r) =>
      if !ShouldCapture(c.limits, r, |c.payloads| + c.pending, c.capturedBytes + c.reservedBytes) then
        TaskDone(c1.(fate := c.fate.(refused := c.fate.refused + 1)))
      else
        WithWorker(c1.(pending := c.pending + 1, reservedBytes := c.reservedBytes + Reservation(r)), w,
                   Reading(r, Reservation(r)))
  }

  function ReleaseBudget(c: Capture, reserved: nat): Capture {
    c.(pending := Max0(c.pending - 1), reservedBytes := Max0(c.reservedBytes - reserved))
  }

  function Discard(c: Capture): Capture { c.(fate := c.fate.(discarded := c.fate.discarded + 1)) }

  function Lose(c: Capture, reserved: nat): Capture {
    c.(fate := c.fate.(lost := c.fate.lost + 1, lostBytes := c.fate.lostBytes + reserved))
  }

  // The last critical section: settle the reservation, check again, store.
  function Commit(c: Capture, r: Response, reserved: nat, length: nat, recordRaised: bool): Capture {
    var c1 := ReleaseBudget(c, reserved);
    if !ShouldCapture(c.limits, r, |c.payloads|, c.capturedBytes) then Discard(c1)
    else if c.capturedBytes + length > TotalBytes(c.limits) then c1.(oversized := c.oversized + 1)
    else if recordRaised then Discard(c1)
    else c1.(payloads := c.payloads + [Payload(r, length)], capturedBytes := c.capturedBytes + length)
  }

  // The rest of _capture_response once the body read has ended.
  function AfterRead(c: Capture, r: Response, reserved: nat, result: ReadResult): Capture {
    match result
    case ReaderRaised | NoBody => Discard(ReleaseBudget(c, reserved))
    case ResponseClosed => ReleaseBudget(c, reserved).(closedFailures := c.closedFailures + 1)
    case ReadTimedOut => ReleaseBudget(c, reserved).(readTimeouts := c.readTimeouts + 1)
    case ReadError => ReleaseBudget(c, reserved).(readFailures := c.readFailures + 1)
    case Body(length, decoding) =>
      if length > ByteBudget(c.limits, r) then ReleaseBudget(c, reserved).(oversized := c.oversized + 1)
      else match decoding {
        case Undecodable => ReleaseBudget(c, reserved).(malformed := c.malformed + 1)
        case DecodeRaised => Lose(c, reserved)
        case _ => Commit(c, r, reserved, length, decoding.RecordRaised?)
      }
  }

  function SettleRead(c: Capture, w: nat, result: ReadResult): Capture
    requires w < |c.workers| && c.workers[w].Reading?
  {
    TaskDone(WithWorker(AfterRead(c, c.workers[w].response, c.workers[w].reserved, result), w, Idle))
  }

  // A cancelled body read passes every `except Exception`: nothing is released.
  function Cancelled(c: Capture, w: nat): Capture
    requires w < |c.workers|
  {
    match c.workers[w]
    case Reading(_, reserved) => TaskDone(WithWorker(Lose(c, reserved), w, Gone))
    case _ => WithWorker(c, w, Gone)
  }

  function DrainOneItem(c: Capture): Capture
    requires c.queue != []
  {
    TaskDone(c.(queue := c.queue[1..],
                fate := if c.queue[0].Some? then c.fate.(drained := c.fate.drained + 1) else c.fate))
  }

  function DrainQueue(c: Capture): Capture
    decreases |c.queue|
  {
    if c.queue == [] then c else DrainQueue(DrainOneItem(c))
  }

  // An event that does not apply changes nothing.
  function Step(c: Capture, e: Event): Capture {
    match e
    case Deliver(r) => Schedule(c, r)
    case Take(w) => if w < |c.workers| && c.workers[w].Idle? && c.queue != [] then TakeNext(c, w) else c
    case Settle(w, result) => if w < |c.workers| && c.workers[w].Reading? then SettleRead(c, w, result) else c
    case BeginClose => c.(closing := true)
    case PutSentinel =>
      if |c.queue| < QueueSize(c.limits) then c.(queue := c.queue + [None], unfinished := c.unfinished + 1) else c
    case Drain => DrainQueue(c)
    case CancelWorker(w) => if w < |c.workers| then Cancelled(c, w) else c
  }

  function Run(c: Capture, events: seq<Event>): Capture
    decreases |events|
  {
    if events == [] then c else Run(Step(c, events[0]), events[1..])
  }

  function Init(l: Limits, workers: nat): Capture {
    Capture(l, [], 0, 0, 0, 0, 0, 0, 0, 0, 0, [], 0, false, seq(workers, _ => Idle), Fate(0, 0, 0, 0, 0, 0, 0))
  }

  datatype Summary = Summary(payloads: seq<Payload>, payloadCount: nat, capturedBytes: int)

  function BuildSummary(c: Capture): Summary {
    var n := if |c.payloads| < MaxPayloads(c.limits) then |c.payloads| else MaxPayloads(c.limits);
    Summary(c.payloads[..n], |c.payloads|, c.capturedBytes)
  }

  // ---- the ledger ----

  function InFlight(ws: seq<Worker>): nat {
    if ws == [] then 0 else B(ws[0].Reading?) + InFlight(ws[1..])
  }

  function ReservedBy(w: Worker): nat { if w.Reading? then w.reserved else 0 }

  function InFlightBytes(ws: seq<Worker>): nat {
    if ws == [] then 0 else ReservedBy(ws[0]) + InFlightBytes(ws[1..])
  }

  function TotalLength(ps: seq<Payload>): nat {
    if ps == [] then 0 else TotalLength(ps[..|ps| - 1]) + ps[|ps| - 1].length
  }

  function Responses(q: seq<Option<Response>>): nat {
    if q == [] then 0 else B(q[0].Some?) + Responses(q[1..])
  }

  // Responses whose reading ended in a counter, a stored payload or a silent discard.
  function SettledCount(c: Capture): nat {
    |c.payloads| + c.malformed + c.readFailures + c.closedFailures + c.oversized + c.readTimeouts + c.fate.discarded
  }

  // The books with `held` responses being read and `bytes` reserved bytes in flight.
  predicate Books(c: Capture, held: nat, bytes: nat) {
    && c.pending == held + c.fate.lost
    && c.reservedBytes == bytes + c.fate.lostBytes
    && |c.payloads| + c.pending <= MaxPayloads(c.limits)
    && c.capturedBytes == TotalLength(c.payloads) <= TotalBytes(c.limits)
    && (forall p :: p in c.payloads ==> p.length <= ByteBudget(c.limits, p.response))
    && c.fate.delivered == c.fate.ignored + c.dropped + Responses(c.queue) + c.fate.refused + c.fate.drained
                           + held + c.fate.lost + SettledCount(c)
  }

  /** The books are exact: pending and reserved bytes belong to the reads in flight and to
      the lost ones; stored bytes are the stored lengths; every limit holds; every
      delivered response is accounted for once; and unfinished queue items are the queued
      ones and those being read. */
  predicate Exact(c: Capture) {
    && Books(c, InFlight(c.workers), InFlightBytes(c.workers))
    && c.unfinished == |c.queue| + InFlight(c.workers)
    && |c.queue| <= QueueSize(c.limits)
  }

  lemma {:induction false} WorkerPut(ws: seq<Worker>, i: nat, w: Worker)
    requires i < |ws|
    ensures InFlight(ws[i := w]) == InFlight(ws) - B(ws[i].Reading?) + B(w.Reading?)
    ensures InFlightBytes(ws[i := w]) == InFlightBytes(ws) - ReservedBy(ws[i]) + ReservedBy(w)
    ensures InFlight(ws) >= B(ws[i].Reading?) && InFlightBytes(ws) >= ReservedBy(ws[i])
  {
    if i > 0 {
      WorkerPut(ws[1..], i - 1, w);
      assert ws[i := w][1..] == ws[1..][i - 1 := w];
    } else {
      assert ws[i := w][1..] == ws[1..];
    }
  }

  lemma {:induction false} ResponsesSnoc(q: seq<Option<Response>>, x: Option<Response>)
    ensures Responses(q + [x]) == Responses(q) + B(x.Some?)
  {
    if q == [] {
      assert [x][1..] == [];
    } else {
      ResponsesSnoc(q[1..], x);
      assert (q + [x])[1..] == q[1..] + [x];
    }
  }

  lemma StepKeepsExact(c: Capture, e: Event)
    requires Exact(c)
    ensures Exact(Step(c, e))
  {
    match e
    case Deliver(r) => DeliverKeepsExact(c, r);
    case PutSentinel => SentinelKeepsExact(c);
    case Take(w) =>
      if w < |c.workers| && c.workers[w].Idle? && c.queue != [] {
        TakeKeepsExact(c, w);
      }
    case Settle(w, result) =>
      if w < |c.workers| && c.workers[w].Reading? {
        SettleKeepsExact(c, w, result);
      }
    case CancelWorker(w) => if w < |c.workers| { CancelKeepsExact(c, w); }
    case Drain => DrainKeepsExact(c);
    case BeginClose =>
  }

  lemma DeliverKeepsExact(c: Capture, r: Response)
    requires Exact(c)
    ensures Exact(Schedule(c, r))
  {
    if !c.closing && |c.queue| < QueueSize(c.limits) { QueuedKeepsExact(c, r); }
  }

  lemma QueuedKeepsExact(c: Capture, r: Response)
    requires Exact(c) && !c.closing && |c.queue| < QueueSize(c.limits)
    ensures Exact(Schedule(c, r))
  {
    ResponsesSnoc(c.queue, Some(r));
  }

  lemma SentinelKeepsExact(c: Capture)
    requires Exact(c)
    ensures Exact(Step(c, PutSentinel))
  {
    ResponsesSnoc(c.queue, None);
  }

  lemma {:induction false} DrainKeepsExact(c: Capture)
    requires Exact(c)
    ensures Exact(DrainQueue(c))
    decreases |c.queue|
  {
    if c.queue != [] {
      DrainKeepsExact(DrainOneItem(c));
    }
  }

  lemma TakeKeepsExact(c: Capture, w: nat)
    requires Exact(c) && w < |c.workers| && c.workers[w].Idle? && c.queue != []
    ensures Exact(TakeNext(c, w))
  {
    if c.queue[0].None? {
      WorkerPut(c.workers, w, Gone);
    } else {
      AdmitKeepsExact(c, w, c.queue[0].value);
    }
  }

  lemma AdmitKeepsExact(c: Capture, w: nat, r: Response)
    requires Exact(c) && w < |c.workers| && c.workers[w].Idle? && c.queue != [] && c.queue[0] == Some(r)
    ensures Exact(TakeNext(c, w))
  {
    WorkerPut(c.workers, w, Reading(r, Reservation(r)));
  }

  lemma CancelKeepsExact(c: Capture, w: nat)
    requires Exact(c) && w < |c.workers|
    ensures Exact(Cancelled(c, w))
  {
    WorkerPut(c.workers, w, Gone);
  }

  lemma SettleKeepsExact(c: Capture, w: nat, result: ReadResult)
    requires Exact(c) && w < |c.workers| && c.workers[w].Reading?
    ensures Exact(SettleRead(c, w, result))
  {
    var worker := c.workers[w];
    WorkerPut(c.workers, w, Idle);
    var v := AfterRead(c, worker.response, worker.reserved, result);
    AfterReadBooks(c, worker.response, worker.reserved, result, InFlight(c.workers), InFlightBytes(c.workers));
    FinishKeepsExact(v, w, InFlight(c.workers) - 1, InFlightBytes(c.workers) - worker.reserved);
  }

  // The settled response is marked done and its worker is idle again.
  lemma FinishKeepsExact(c: Capture, w: nat, held: nat, bytes: nat)
    requires w < |c.workers| && Books(c, held, bytes)
    requires held == InFlight(c.workers[w := Idle]) && bytes == InFlightBytes(c.workers[w := Idle])
    requires c.unfinished == |c.queue| + held + 1 && |c.queue| <= QueueSize(c.limits)
    ensures Exact(TaskDone(WithWorker(c, w, Idle)))
  {
  }

  // From books with a read in flight to books without it.
  predicate Closes(c: Capture, held: nat, bytes: nat, v: Capture) {
    Books(v, held, bytes) && v.workers == c.workers && v.queue == c.queue && v.unfinished == c.unfinished &&
      v.limits == c.limits
  }

  lemma AfterReadBooks(c: Capture, r: Response, reserved: nat, result: ReadResult, held: nat, bytes: nat)
    requires Books(c, held, bytes) && held >= 1 && bytes >= reserved
    ensures Closes(c, held - 1, bytes - reserved, AfterRead(c, r, reserved, result))
  {
    if result.Body? {
      BodyBooks(c, r, reserved, result, held, bytes);
    } else {
      FailureBooks(c, r, reserved, result, held, bytes);
    }
  }

  lemma FailureBooks(c: Capture, r: Response, reserved: nat, result: ReadResult, held: nat, bytes: nat)
    requires Books(c, held, bytes) && held >= 1 && bytes >= reserved && !result.Body?
    ensures Closes(c, held - 1, bytes - reserved, AfterRead(c, r, reserved, result))
  {
  }

  lemma BodyBooks(c: Capture, r: Response, reserved: nat, result: ReadResult, held: nat, bytes: nat)
    requires Books(c, held, bytes) && held >= 1 && bytes >= reserved && result.Body?
    ensures Closes(c, held - 1, bytes - reserved, AfterRead(c, r, reserved, result))
  {
    if result.length <= ByteBudget(c.limits, r) && (result.decoding.Decodes? || result.decoding.RecordRaised?) {
      CommitBooks(c, r, reserved, result.length, result.decoding.RecordRaised?, held, bytes);
    }
  }

  lemma CommitBooks(c: Capture, r: Response, reserved: nat, length: nat, recordRaised: bool, held: nat, bytes: nat)
    requires Books(c, held, bytes) && held >= 1 && bytes >= reserved && length <= ByteBudget(c.limits, r)
    ensures Closes(c, held - 1, bytes - reserved, Commit(c, r, reserved, length, recordRaised))
  {
    var v := Commit(c, r, reserved, length, recordRaised);
    if |v.payloads| > |c.payloads| {
      assert v.payloads[..|v.payloads| - 1] == c.payloads;
    }
  }

  // ---- theorems about every run ----

  lemma {:induction false} RunKeepsExact(c: Capture, events: seq<Event>)
    requires Exact(c)
    ensures Exact(Run(c, events))
    decreases |events|
  {
    if events != [] {
      StepKeepsExact(c, events[0]);
      RunKeepsExact(Step(c, events[0]), events[1..]);
    }
  }

  lemma {:induction false} IdleInFlight(n: nat)
    ensures var ws := seq(n, _ => Idle); InFlight(ws) == 0 && InFlightBytes(ws) == 0
  {
    if n > 0 {
      IdleInFlight(n - 1);
      assert seq(n, _ => Idle)[1..] == seq(n - 1, _ => Idle);
    }
  }

  /** The books are exact after every interleaving of deliveries, workers and closing. */
  lemma LedgerIsExact(l: Limits, workers: nat, events: seq<Event>)
    ensures Exact(Run(Init(l, workers), events))
  {
    IdleInFlight(workers);
    RunKeepsExact(Init(l, workers), events);
  }

  /** The slice in the summary drops nothing, and the reported count is the number of
      payloads returned. */
  lemma SummaryIsComplete(l: Limits, workers: nat, events: seq<Event>)
    ensures var c := Run(Init(l, workers), events); var s := BuildSummary(c);
      s.payloads == c.payloads && s.payloadCount == |s.payloads| && s.capturedBytes == TotalLength(s.payloads)
  {
    LedgerIsExact(l, workers, events);
    var c := Run(Init(l, workers), events);
    assert c.payloads[..|c.payloads|] == c.payloads;
  }

  // A worker cancelled while it reads, or a decoder that raises, never gives its
  // reservation back.
  predicate Loses(c: Capture, e: Event) {
    match e
    case CancelWorker(w) => w < |c.workers| && c.workers[w].Reading?
    case Settle(w, Body(length, DecodeRaised)) =>
      w < |c.workers| && c.workers[w].Reading? && length <= ByteBudget(c.limits, c.workers[w].response)
    case _ => false
  }

  function Losses(c: Capture, events: seq<Event>): nat
    decreases |events|
  {
    if events == [] then 0 else B(Loses(c, events[0])) + Losses(Step(c, events[0]), events[1..])
  }

  /** Exactly these steps leak: the pending count is the number of reads in flight, in
      every state, if and only if none of them happened. */
  lemma {:induction false} LeaksCounted(c: Capture, events: seq<Event>)
    ensures Run(c, events).fate.lost == c.fate.lost + Losses(c, events)
    decreases |events|
  {
    if events != [] {
      LeakCounted(c, events[0]);
      LeaksCounted(Step(c, events[0]), events[1..]);
    }
  }

  lemma LeakCounted(c: Capture, e: Event)
    ensures Step(c, e).fate.lost == c.fate.lost + B(Loses(c, e))
  {
    match e
    case Drain => DrainLosesNothing(c);
    case Settle(w, result) =>
      if w < |c.workers| && c.workers[w].Reading? {
        AfterReadLoses(c, c.workers[w].response, c.workers[w].reserved, result);
      }
    case _ =>
  }

  lemma AfterReadLoses(c: Capture, r: Response, reserved: nat, result: ReadResult)
    ensures AfterRead(c, r, reserved, result).fate.lost
         == c.fate.lost + B(result.Body? && result.decoding.DecodeRaised? && result.length <= ByteBudget(c.limits, r))
  {
  }

  lemma {:induction false} DrainLosesNothing(c: Capture)
    ensures DrainQueue(c).fate.lost == c.fate.lost
    decreases |c.queue|
  {
    if c.queue != [] {
      DrainLosesNothing(DrainOneItem(c));
    }
  }

  lemma PendingIsInFlightIffNoLeak(l: Limits, workers: nat, events: seq<Event>)
    ensures var c := Run(Init(l, workers), events);
      c.pending == InFlight(c.workers) <==> Losses(Init(l, workers), events) == 0
  {
    LedgerIsExact(l, workers, events);
    LeaksCounted(Init(l, workers), events);
  }

  /** One cancelled read is enough: a reservation stays behind that no read holds. */
  lemma CancelledReadLeaks(l: Limits)
    requires l == Limits(1, 10, 10)
    ensures exists events :: var c := Run(Init(l, 1), events); c.pending == 1 && InFlight(c.workers) == 0
  {
    var r := Response(true, false, true, None, false);
    var a, b, d := Deliver(r), Take(0), CancelWorker(0);
    var c0 := Init(l, 1);
    assert c0.workers == [Idle];
    var c1 := Step(c0, a);
    assert c1.queue == [Some(r)] && c1.workers == [Idle];
    var c2 := Step(c1, b);
    assert c2.workers == [Reading(r, 0)] && c2.pending == 1;
    var c3 := Step(c2, d);
    assert c3.workers == [Gone] && [Gone][1..] == [];
    assert [a, b, d][1..] == [b, d] && [b, d][1..] == [d] && [d][1..] == [];
    assert c3 == Run(c3, []) == Run(c2, [d]) == Run(c1, [b, d]) == Run(c0, [a, b, d]);
  }

  /** Draining leaves the queue empty, with every item it held marked done. */
  lemma {:induction false} DrainEmptiesQueue(c: Capture)
    ensures var d := DrainQueue(c);
      d.queue == [] && d.unfinished == c.unfinished - |c.queue|
      && d == c.(queue := d.queue, unfinished := d.unfinished, fate := d.fate)
    decreases |c.queue|
  {
    if c.queue != [] { DrainEmptiesQueue(DrainOneItem(c)); }
  }

  /** Once the queue's join returns, nothing is queued or being read; so cancelling the
      workers then loses nothing, and without earlier leaks every reservation is back. */
  lemma JoinedCloseLosesNothing(l: Limits, workers: nat, events: seq<Event>, cancels: seq<nat>)
    requires Run(Init(l, workers), events).unfinished == 0
    ensures var c := Run(Init(l, workers), events); var c' := Run(c, CancelAll(cancels));
      && c.queue == [] && InFlight(c.workers) == 0
      && c' == c.(workers := c'.workers) && c'.pending == Losses(Init(l, workers), events)
      && (c'.pending == 0 ==> c'.fate.lost == 0)
  {
    var c := Run(Init(l, workers), events);
    LedgerIsExact(l, workers, events);
    LeaksCounted(Init(l, workers), events);
    CancelIdle(c, cancels);
  }

  function CancelAll(ws: seq<nat>): seq<Event> {
    if ws == [] then [] else [CancelWorker(ws[0])] + CancelAll(ws[1..])
  }

  lemma {:induction false} CancelIdle(c: Capture, cancels: seq<nat>)
    requires InFlight(c.workers) == 0
    ensures var c' := Run(c, CancelAll(cancels)); c' == c.(workers := c'.workers)
    decreases |cancels|
  {
    if cancels != [] {
      var w := cancels[0];
      var events := CancelAll(cancels);
      assert events[1..] == CancelAll(cancels[1..]);
      if w < |c.workers| {
        WorkerPut(c.workers, w, Gone);
      }
      CancelIdle(Step(c, CancelWorker(w)), cancels[1..]);
    }
  }
}
