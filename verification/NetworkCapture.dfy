/**
 The capture object: its fields and the methods that change them, each proved to do what
 the ledger's step says.
 */
module NetworkCapture {
  import opened Wrappers
  import opened CaptureLedger

  class BrowserNetworkCapture {
    const limits: Limits
    var payloads: seq<Payload>
    var capturedBytes: int
    var pendingPayloads: int
    var reservedBytes: int
    var malformedPayloads: nat
    var payloadReadFailures: nat
    var payloadClosedFailures: nat
    var oversizedPayloads: nat
    var payloadReadTimeouts: nat
    var droppedPayloadEvents: nat
    var queue: seq<Option<Response>>
    var unfinished: int
    var closing: bool
    var workers: seq<Worker>
    ghost var fate: Fate

    ghost function View(): Capture
      reads this
    {
      Capture(limits, payloads, capturedBytes, pendingPayloads, reservedBytes, malformedPayloads, payloadReadFailures,
              payloadClosedFailures, oversizedPayloads, payloadReadTimeouts, droppedPayloadEvents, queue, unfinished,
              closing, workers, fate)
    }

    constructor (limits: Limits, workerCount: nat)
      ensures View() == Init(limits, workerCount)
    {
      this.limits := limits;
      payloads, capturedBytes, pendingPayloads, reservedBytes := [], 0, 0, 0;
      malformedPayloads, payloadReadFailures, payloadClosedFailures := 0, 0, 0;
      oversizedPayloads, payloadReadTimeouts, droppedPayloadEvents := 0, 0, 0;
      queue, unfinished, closing := [], 0, false;
      workers := seq(workerCount, _ => Idle);
      fate := Fate(0, 0, 0, 0, 0, 0, 0);
    }

    method ScheduleCapture(response: Response)
      modifies this
      ensures View() == Step(old(View()), Deliver(response))
    {
      fate := fate.(delivered := fate.delivered + 1);
      if closing {
        fate := fate.(ignored := fate.ignored + 1);
        return;
      }
      if |queue| >= QueueSize(limits) {
        droppedPayloadEvents := droppedPayloadEvents + 1;
      } else {
        queue := queue + [Some(response)];
        unfinished := unfinished + 1;
      }
    }

    method TaskDone()
      modifies this`unfinished
      ensures unfinished == old(unfinished) - 1
    {
      unfinished := unfinished - 1;
    }

    // The worker's queue.get returns.
    method CaptureWorker(w: nat)
      requires w < |workers| && workers[w].Idle? && queue != []
      modifies this
      ensures View() == Step(old(View()), Take(w))
    {
      var item := queue[0];
      queue := queue[1..];
      match item
      case None =>
        workers := workers[w := Gone];
        TaskDone();
      case Some(response) =>
        var reserved := ReserveCaptureBudget(response);
        if reserved.Some? {
          workers := workers[w := Reading(response, reserved.value)];
        } else {
          fate := fate.(refused := fate.refused + 1);
          TaskDone();
        }
    }

    method ReserveCaptureBudget(response: Response) returns (reserved: Option<nat>)
      modifies this`pendingPayloads, this`reservedBytes
      ensures reserved.Some? <==>
              ShouldCapture(limits, response, |payloads| + old(pendingPayloads), capturedBytes + old(reservedBytes))
      ensures reserved.Some? ==> reserved.value == Reservation(response)
      ensures pendingPayloads == old(pendingPayloads) + B(reserved.Some?)
      ensures reservedBytes == old(reservedBytes) + (if reserved.Some? then reserved.value else 0)
    {
      var bytes := Reservation(response);
      if !ShouldCapture(limits, response, |payloads| + pendingPayloads, capturedBytes + reservedBytes) {
        return None;
      }
      pendingPayloads := pendingPayloads + 1;
      reservedBytes := reservedBytes + bytes;
      return Some(bytes);
    }

    method ReleaseCaptureBudget(reserved: nat)
      modifies this`pendingPayloads, this`reservedBytes
      ensures pendingPayloads == Max0(old(pendingPayloads) - 1) && reservedBytes == Max0(old(reservedBytes) - reserved)
    {
      pendingPayloads := Max0(pendingPayloads - 1);
      reservedBytes := Max0(reservedBytes - reserved);
    }

    // The body read ends: the rest of _capture_response, then the worker's finally.
    method FinishCapture(w: nat, result: ReadResult)
      requires w < |workers| && workers[w].Reading?
      modifies this
      ensures View() == Step(old(View()), Settle(w, result))
    {
      CaptureResponse(workers[w].response, workers[w].reserved, result);
      workers := workers[w := Idle];
      TaskDone();
    }

    method CaptureResponse(response: Response, reserved: nat, result: ReadResult)
      modifies this
      ensures View() == AfterRead(old(View()), response, reserved, result)
    {
      if result.Body? && result.length <= ByteBudget(limits, response) {
        if result.decoding.Undecodable? {
          ReleaseCaptureBudget(reserved);
          malformedPayloads := malformedPayloads + 1;
        } else if result.decoding.DecodeRaised? {
          fate := fate.(lost := fate.lost + 1, lostBytes := fate.lostBytes + reserved);
        } else {
          StorePayload(response, reserved, result.length, result.decoding.RecordRaised?);
        }
        return;
      }
      ReleaseCaptureBudget(reserved);
      match result
      case ReaderRaised | NoBody => fate := fate.(discarded := fate.discarded + 1);
      case ResponseClosed => payloadClosedFailures := payloadClosedFailures + 1;
      case Body(_, _) => oversizedPayloads := oversizedPayloads + 1;
      case ReadTimedOut => payloadReadTimeouts := payloadReadTimeouts + 1;
      case ReadError => payloadReadFailures := payloadReadFailures + 1;
    }

    method StorePayload(response: Response, reserved: nat, length: nat, recordRaised: bool)
      modifies this
      ensures View() == Commit(old(View()), response, reserved, length, recordRaised)
    {
      ReleaseCaptureBudget(reserved);
      if !ShouldCapture(limits, response, |payloads|, capturedBytes) {
        fate := fate.(discarded := fate.discarded + 1);
        return;
      }
      if capturedBytes + length > TotalBytes(limits) {
        oversizedPayloads := oversizedPayloads + 1;
        return;
      }
      if recordRaised {
        fate := fate.(discarded := fate.discarded + 1);
        return;
      }
      payloads := payloads + [Payload(response, length)];
      capturedBytes := capturedBytes + length;
    }

    method Cancel(w: nat)
      requires w < |workers|
      modifies this
      ensures View() == Step(old(View()), CancelWorker(w))
    {
      if workers[w].Reading? {
        fate := fate.(lost := fate.lost + 1, lostBytes := fate.lostBytes + workers[w].reserved);
        TaskDone();
      }
      workers := workers[w := Gone];
    }

    method DrainCaptureQueue()
      modifies this
      ensures View() == Step(old(View()), Drain)
      ensures queue == [] && unfinished == old(unfinished) - |old(queue)|
    {
      DrainEmptiesQueue(View());
      while queue != []
        invariant DrainQueue(View()) == DrainQueue(old(View()))
        decreases |queue|
      {
        if queue[0].Some? {
          fate := fate.(drained := fate.drained + 1);
        }
        queue := queue[1..];
        TaskDone();
      }
    }

    method SummaryOf() returns (s: Summary)
      ensures s == BuildSummary(View())
    {
      var n := if |payloads| < MaxPayloads(limits) then |payloads| else MaxPayloads(limits);
      s := Summary(payloads[..n], |payloads|, capturedBytes);
    }
  }
}
