/** The delivery loop's client side of the buffer. */
module Delivery {
  import opened Basics
  import opened LineFormat
  import opened Replay
  import opened DiskBufferModule
  import B = BufferModel

  const MAX_BATCH_EVENTS: nat := 1000
  const MAX_BATCH_BYTES: nat := 5 * 1024 * 1024
  const BODY_MARGIN_BYTES: nat := 4096

  /** The server's answer to a POST; `revoked` is the error code DEVICE_REVOKED. */
  datatype Response = TransportError | Status(code: nat, revoked: bool)

  datatype Outcome = Delivered(accepted: nat) | Idle | Backoff | Revoked

  function EventCap(configured: nat): (cap: nat)
    ensures 1 <= cap <= MAX_BATCH_EVENTS
    ensures 1 <= configured <= MAX_BATCH_EVENTS ==> cap == configured
    ensures configured > MAX_BATCH_EVENTS ==> cap == MAX_BATCH_EVENTS
  {
    if configured < 1 then 1 else if configured > MAX_BATCH_EVENTS then MAX_BATCH_EVENTS else configured
  }

  /** What the server takes and what is configured, less room for the wrapper of the events. */
  function ByteCap(configured: nat): (cap: nat)
    ensures configured >= BODY_MARGIN_BYTES ==> cap + BODY_MARGIN_BYTES == Min(configured, MAX_BATCH_BYTES)
    ensures configured < BODY_MARGIN_BYTES ==> cap == 0
  {
    SaturatingSub(if configured < MAX_BATCH_BYTES then configured else MAX_BATCH_BYTES, BODY_MARGIN_BYTES)
  }

  predicate Accepts(r: Response) {
    r.Status? && 200 <= r.code < 300
  }

  /** The event cap after an answer: halved, never below one, on 413. */
  function CapAfter(cap: nat, r: Response): nat {
    if r.Status? && r.code == 413 then (if cap / 2 > 1 then cap / 2 else 1) else cap
  }

  predicate Revokes(r: Response) {
    r.Status? && r.code == 401 && r.revoked
  }

  function OutcomeOf(r: Response, n: nat): Outcome {
    if Accepts(r) then Delivered(n) else if Revokes(r) then Revoked else Backoff
  }

  // -------------------------------------------------------------- request body

  const BODY_OPEN := "{\"events\":["
  const BODY_CLOSE := "]}"

  function Joined(items: seq<string>): string {
    if items == [] then ""
    else if |items| == 1 then items[0]
    else Joined(items[..|items| - 1]) + "," + items[|items| - 1]
  }

  function Body(items: seq<string>): string {
    BODY_OPEN + Joined(items) + BODY_CLOSE
  }

  method BuildBody(items: seq<string>) returns (body: string)
    ensures body == Body(items)
  {
    body := BODY_OPEN;
    for i := 0 to |items|
      invariant body == BODY_OPEN + Joined(items[..i])
    {
      assert items[..i + 1][..i] == items[..i];
      if i > 0 {
        body := body + ",";
      }
      body := body + items[i];
    }
    assert items[..|items|] == items;
    body := body + BODY_CLOSE;
  }

  lemma {:induction false} JoinedLength(items: seq<Item>)
    requires items != []
    ensures |Joined(Jsons(items))| + 1 == Cost(items)
  {
    var init, last := items[..|items| - 1], items[|items| - 1];
    assert items == init + [last] && [last][1..] == [];
    CostAppend(init, [last]);
    assert Jsons(items)[..|items| - 1] == Jsons(init);
    if |items| > 1 { JoinedLength(init); }
  }

  /** Events fit a batch if there are not too many of them and their texts, with a comma after each,
  are not too long; but one event always fits. */
  lemma FitsMeans(items: seq<Item>, n: nat, maxEvents: nat, maxBytes: nat)
    requires n <= |items|
    ensures Fits(items, n, maxEvents, maxBytes) <==>
      n <= maxEvents && (n == 0 || n == 1 || |Joined(Jsons(items[..n]))| + 1 <= maxBytes)
  {
    if n > 1 {
      JoinedLength(items[..n]);
    }
  }

  /** The body of every batch read within the byte cap stays under the server's limit, unless
  it is a single event that alone exceeds it: exactly then the limit is broken. */
  lemma BodyWithinLimit(items: seq<Item>, maxEvents: nat, configured: nat)
    requires items != [] && Fits(items, |items|, maxEvents, ByteCap(configured))
    ensures |Body(Jsons(items))| > MAX_BATCH_BYTES <==>
      |items| == 1 && |items[0].rec.json| + |BODY_OPEN| + |BODY_CLOSE| > MAX_BATCH_BYTES
  {
    JoinedLength(items);
    assert items[..|items|] == items;
    if |items| == 1 { assert Cost(items) == |items[0].rec.json| + 1 + Cost(items[1..]); }
  }

  // ------------------------------------------------------------------ deliverer

  class Deliverer {
    const maxBytes: nat
    var currentMaxEvents: nat

    constructor (configuredEvents: nat, configuredBytes: nat)
      ensures currentMaxEvents == EventCap(configuredEvents) && maxBytes == ByteCap(configuredBytes)
    {
      currentMaxEvents, maxBytes := EventCap(configuredEvents), ByteCap(configuredBytes);
    }

    /** The read under the lock. */
    method Begin(buffer: DiskBuffer) returns (batch: Option<Batch>, body: string)
      requires buffer.Valid() && B.Wf(buffer.Snapshot())
      ensures var backlog := B.Backlog(buffer.Snapshot());
        exists n: nat ::
          && IsLongest(backlog, n, currentMaxEvents, maxBytes)
          && batch == (if n == 0 then None else Some(BatchOf(backlog[..n])))
      ensures batch.Some? ==> body == Body(batch.value.items)
    {
      batch := buffer.NextBatch(currentMaxEvents, maxBytes);
      body := "";
      if batch.Some? { body := BuildBody(batch.value.items); }
    }

    /** The answer to the POST: the buffer is committed on 2xx and otherwise untouched. */
    method Finish(buffer: DiskBuffer, batch: Batch, r: Response) returns (o: Outcome)
      requires buffer.Valid() && |batch.taken| == 3
      modifies this, buffer, buffer.queues
      ensures buffer.Valid()
      ensures buffer.Snapshot() ==
        if Accepts(r) then B.Commit(old(buffer.Snapshot()), batch) else old(buffer.Snapshot())
      ensures currentMaxEvents == (if Accepts(r) then old(currentMaxEvents) else CapAfter(old(currentMaxEvents), r))
      ensures o == OutcomeOf(r, |batch.items|)
      ensures match r
        case TransportError =>
          o == Backoff && buffer.Snapshot() == old(buffer.Snapshot()) && currentMaxEvents == old(currentMaxEvents)
        case Status(code, revoked) =>
          && buffer.Snapshot() == (if 200 <= code <= 299 then B.Commit(old(buffer.Snapshot()), batch)
                                   else old(buffer.Snapshot()))
          && o == (if 200 <= code <= 299 then Delivered(|batch.items|)
                   else if code == 401 && revoked then Revoked else Backoff)
          && currentMaxEvents == (if code == 413 then Max(1, old(currentMaxEvents) / 2) else old(currentMaxEvents))
    {
      match r
      case TransportError =>
        return Backoff;
      case Status(code, revoked) =>
        if 200 <= code < 300 {
          buffer.Commit(batch);
          return Delivered(|batch.items|);
        }
        if code == 401 && revoked {
          return Revoked;
        }
        if code == 413 {
          var newCap := currentMaxEvents / 2;
          currentMaxEvents := if newCap > 1 then newCap else 1;
        }
        return Backoff;
    }

    /** One attempt.  `arrivals` are the events that the drain loop enqueues while the POST is
    under way and the buffer is unlocked. */
    method DeliverOnce(buffer: DiskBuffer, arrivals: seq<B.Event>, r: Response) returns (o: Outcome)
      requires buffer.Valid() && B.Wf(buffer.Snapshot())
      requires buffer.nextSeq + |arrivals| <= U64_MAX + 1
      requires forall ev | ev in arrivals :: IsJsonObject(ev.json)
      modifies this, buffer, buffer.queues
      ensures buffer.Valid()
      ensures var b := old(buffer.Snapshot());
        exists n: nat ::
          && IsLongest(B.Backlog(b), n, old(currentMaxEvents), maxBytes)
          && if n == 0 then o == Idle && buffer.Snapshot() == b
             else
               var batch, b1 := BatchOf(B.Backlog(b)[..n]), EnqueueAll(b, arrivals);
               o == OutcomeOf(r, n) && buffer.Snapshot() == if Accepts(r) then B.Commit(b1, batch) else b1
    {
      hide B.Wf, B.Enqueue, B.Commit, B.Backlog, Cost, Accepts, OutcomeOf, CapAfter, IsJsonObject;
      ghost var b := buffer.Snapshot();
      var batch, body := Begin(buffer);
      ghost var n: nat :| IsLongest(B.Backlog(b), n, currentMaxEvents, maxBytes)
        && batch == if n == 0 then None else Some(BatchOf(B.Backlog(b)[..n]));
      if batch.None? {
        return Idle;
      }
      BatchFacts(B.Backlog(b)[..n]);
      assert arrivals[..0] == [];
      for i := 0 to |arrivals|
        invariant buffer.Valid() && currentMaxEvents == old(currentMaxEvents)
        invariant B.Wf(buffer.Snapshot()) && buffer.nextSeq <= b.nextSeq + i
        invariant buffer.Snapshot() == EnqueueAll(b, arrivals[..i])
      {
        assert arrivals[..i + 1][..i] == arrivals[..i] && arrivals[i] in arrivals;
        EnqueueStep(buffer.Snapshot(), arrivals[i]);
        buffer.Enqueue(arrivals[i]);
      }
      assert arrivals[..|arrivals|] == arrivals;
      o := Finish(buffer, batch.value, r);
    }
  }

  function EnqueueAll(b: B.Three, events: seq<B.Event>): B.Three {
    if events == [] then b else B.Enqueue(EnqueueAll(b, events[..|events| - 1]), events[|events| - 1])
  }

  lemma EnqueueStep(b: B.Three, ev: B.Event)
    requires B.Wf(b) && b.nextSeq <= U64_MAX && IsJsonObject(ev.json)
    ensures B.Wf(B.Enqueue(b, ev)) && B.Enqueue(b, ev).nextSeq <= b.nextSeq + 1
  {
    ParseInvertsFormat(b.nextSeq, ev.json);
    var d := B.EnqueueSpec(b, ev);
  }
}
