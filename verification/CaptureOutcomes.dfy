/**
 What each step of the capture does with one response: when it is queued, admitted, stored or
 counted, in terms of the settings, the response and the amounts stored so far.
 */
module CaptureOutcomes {
  import opened Wrappers
  import opened CaptureLedger

  // ---- the capture test, spelled out ----

  function AtMost(a: nat, b: nat): nat { if a < b then a else b }

  // The endpoint's budget: four times as much for a high-value endpoint, and never above the total.
  function Budget(l: Limits, r: Response): nat {
    var one := if l.maxPayloadBytes > 1 then l.maxPayloadBytes else 1;
    var total := if l.totalBytes > 1 then l.totalBytes else 1;
    if r.highValue then AtMost(4 * one, total) else AtMost(one, total)
  }

  // The length a response declares; a chunked one declares none.
  function Declared(r: Response): Option<nat> {
    if r.chunked || r.lengthHeader.None? then None
    else Some(if r.lengthHeader.value > 0 then r.lengthHeader.value else 0)
  }

  // The response may be captured beside this many payloads and bytes.
  predicate Fits(l: Limits, r: Response, count: int, bytes: int) {
    && r.supported && !r.noise
    && (count < 1 || count < l.maxPayloads)
    && (bytes < 1 || bytes < l.totalBytes)
    && (Declared(r).Some? ==>
          && Declared(r).value <= Budget(l, r)
          && (bytes + Declared(r).value <= 1 || bytes + Declared(r).value <= l.totalBytes))
  }

  lemma CaptureTestIs(l: Limits, r: Response, count: int, bytes: int)
    ensures ShouldCapture(l, r, count, bytes) <==> Fits(l, r, count, bytes)
    ensures ByteBudget(l, r) == Budget(l, r)
    ensures Reservation(r) == if Declared(r).Some? then Declared(r).value else 0
  {
  }

  // ---- storing ----

  // The event ends a body read with a body that is to be stored.
  predicate Stores(c: Capture, e: Event) {
    && e.Settle? && e.worker < |c.workers| && c.workers[e.worker].Reading?
    && e.result.Body? && e.result.decoding.Decodes?
    && var r := c.workers[e.worker].response;
    && e.result.length <= Budget(c.limits, r) && Fits(c.limits, r, |c.payloads|, c.capturedBytes)
    && (c.capturedBytes + e.result.length <= 1 || c.capturedBytes + e.result.length <= c.limits.totalBytes)
  }

  /** The list of payloads grows if and only if a read ends with a body that decodes without a
      raise, is within its endpoint's budget, still passes the capture test on what is stored, and
      fits the total. It grows by exactly that payload, and the captured bytes by its length;
      nothing else ever changes either. */
  lemma StoresIff(c: Capture, e: Event)
    ensures var c' := Step(c, e);
      if Stores(c, e) then
        var r := c.workers[e.worker].response;
        c'.payloads == c.payloads + [Payload(r, e.result.length)] &&
          c'.capturedBytes == c.capturedBytes + e.result.length
      else c'.payloads == c.payloads && c'.capturedBytes == c.capturedBytes
  {
    match e
    case Settle(w, result) => if w < |c.workers| && c.workers[w].Reading? { SettleStores(c, w, result); }
    case Drain => DrainEmptiesQueue(c);
    case _ =>
  }

  lemma SettleStores(c: Capture, w: nat, result: ReadResult)
    requires w < |c.workers| && c.workers[w].Reading?
    ensures var r := c.workers[w].response; var v := AfterRead(c, r, c.workers[w].reserved, result);
      if Stores(c, Settle(w, result)) then
        v.payloads == c.payloads + [Payload(r, result.length)] && v.capturedBytes == c.capturedBytes + result.length
      else v.payloads == c.payloads && v.capturedBytes == c.capturedBytes
  {
    CaptureTestIs(c.limits, c.workers[w].response, |c.payloads|, c.capturedBytes);
  }

  // ---- queueing and admitting ----

  /** A delivered response is queued if and only if the capture is not closing and the queue, of
      twice max_payloads but at least one, has room; it is counted as dropped if and only if the
      queue is full and the capture is not closing. */
  lemma QueuedIff(c: Capture, r: Response)
    ensures var c' := Step(c, Deliver(r)); var room := |c.queue| < 1 || |c.queue| < 2 * c.limits.maxPayloads;
      && c'.queue == (if !c.closing && room then c.queue + [Some(r)] else c.queue)
      && c'.dropped == c.dropped + B(!c.closing && !room)
  {
  }

  /** A worker that takes a response reads its body if and only if it passes the capture test on
      stored plus pending amounts, and then holds exactly its declared length. */
  lemma AdmittedIff(c: Capture, w: nat, r: Response)
    requires w < |c.workers| && c.workers[w].Idle? && c.queue != [] && c.queue[0] == Some(r)
    ensures var c' := Step(c, Take(w)); var n := if Declared(r).Some? then Declared(r).value else 0;
      && c'.queue == c.queue[1..]
      && if Fits(c.limits, r, |c.payloads| + c.pending, c.capturedBytes + c.reservedBytes)
         then c'.workers == c.workers[w := Reading(r, n)] && c'.pending == c.pending + 1 &&
           c'.reservedBytes == c.reservedBytes + n
         else c'.workers == c.workers && c'.pending == c.pending && c'.reservedBytes == c.reservedBytes
  {
    CaptureTestIs(c.limits, r, |c.payloads| + c.pending, c.capturedBytes + c.reservedBytes);
  }

  // ---- counting what was not stored ----

  /** Every read that ends frees its worker and is counted where it belongs: timeouts, read errors
      and closed responses by their own counters, undecodable bodies as malformed, and bodies over
      their budget, or that no longer fit the total, as oversized. */
  lemma EndedReadIsCounted(c: Capture, w: nat, result: ReadResult)
    requires w < |c.workers| && c.workers[w].Reading?
    ensures var c' := Step(c, Settle(w, result)); var r := c.workers[w].response;
      var within := result.Body? && result.length <= Budget(c.limits, r);
      && c'.workers == c.workers[w := Idle]
      && c'.readTimeouts == c.readTimeouts + B(result.ReadTimedOut?)
      && c'.readFailures == c.readFailures + B(result.ReadError?)
      && c'.closedFailures == c.closedFailures + B(result.ResponseClosed?)
      && c'.malformed == c.malformed + B(within && result.decoding.Undecodable?)
      && c'.oversized == c.oversized + B(result.Body? && (!within || NoLongerFits(c, r, result)))
  {
    CaptureTestIs(c.limits, c.workers[w].response, |c.payloads|, c.capturedBytes);
  }

  // A decoded body passes the capture test again, but the total has no room for it.
  predicate NoLongerFits(c: Capture, r: Response, result: ReadResult) {
    && result.Body? && (result.decoding.Decodes? || result.decoding.RecordRaised?)
    && Fits(c.limits, r, |c.payloads|, c.capturedBytes)
    && c.capturedBytes + result.length > 1 && c.capturedBytes + result.length > c.limits.totalBytes
  }

  /** Something is stored: one response that passes the test and decodes is in the summary. */
  lemma OnePayloadIsReturned(r: Response, length: nat)
    requires r.supported && !r.noise && r.chunked && length <= 10
    ensures exists events :: BuildSummary(Run(Init(Limits(1, 10, 10), 1), events)).payloads == [Payload(r, length)]
  {
    var l := Limits(1, 10, 10);
    var c0 := Init(l, 1);
    var a, b, d := Deliver(r), Take(0), Settle(0, Body(length, Decodes));
    assert c0.workers == [Idle];
    var c1 := Step(c0, a);
    assert c1.queue == [Some(r)] && c1.workers == [Idle];
    AdmittedIff(c1, 0, r);
    var c2 := Step(c1, b);
    assert c2.workers == [Reading(r, 0)];
    StoresIff(c2, d);
    var c3 := Step(c2, d);
    assert c3.payloads == [Payload(r, length)];
    assert [a, b, d][1..] == [b, d] && [b, d][1..] == [d] && [d][1..] == [];
    assert c3 == Run(c3, []) == Run(c2, [d]) == Run(c1, [b, d]) == Run(c0, [a, b, d]);
  }
}
