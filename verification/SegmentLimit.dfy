/** How large segments get: one is closed by the append that brings it to the limit, so the active
segment of a class is below the limit in every reachable state. */
module SegmentLimit {
  import opened Basics
  import opened Replay
  import opened Delivery
  import opened AgentRun
  import B = BufferModel
  import Q = SegmentQueue
  import R = Recovery

  function ActiveBytes(q: Q.Queue): nat {
    if q.active.Some? then q.active.value.bytes else 0
  }

  /** An append writes to the active segment, or to a new one, and closes it exactly when it is then
  as large as the limit. */
  lemma AppendRotates(q: Q.Queue, line: string, seq_: nat, segmentMax: nat)
    ensures var q', grown := Q.Append(q, line, seq_, segmentMax), ActiveBytes(q) + |line|;
      && (grown < segmentMax ==> q'.segments == q.segments && q'.active.Some? && ActiveBytes(q') == grown)
      && (grown >= segmentMax ==>
            && q'.active.None? && |q'.segments| == |q.segments| + 1
            && q'.segments[..|q.segments|] == q.segments && q'.segments[|q.segments|].bytes == grown)
  {
  }

  predicate ActiveBelow(q: Q.Queue, segmentMax: nat) {
    q.active.Some? ==> q.active.value.bytes < segmentMax
  }

  lemma {:induction false} ReclaimKeepsActive(q: Q.Queue)
    ensures Q.Reclaim(q).0.active in {q.active, None}
    decreases |Q.Segs(q)|
  {
    if q.segments != [] && q.consumedEntries >= q.segments[0].entries {
      var q1 := Q.Consume(q, q.segments[0]);
      assert Q.Segs(q1) == Q.Segs(q)[1..];
      ReclaimKeepsActive(q1);
    }
  }

  ghost predicate AllBelow(b: B.Three) {
    forall c | 0 <= c < 3 :: ActiveBelow(b.queues[c], b.segmentMax)
  }

  /** A buffer that was just opened has no active segments. */
  lemma ReopenedIsBelow(maxTotal: nat, segmentMax: nat, listings: seq<seq<string>>, dirs: seq<R.Directory>)
    requires |listings| == |dirs| == 3
    requires forall c, n | 0 <= c < 3 && n in listings[c] :: n in dirs[c]
    ensures AllBelow(R.Reopened(maxTotal, segmentMax, listings, dirs))
  {
    hide R.RecoveredClass, Q.Bytes, R.MaxSeqOf;
  }

  lemma ShedOneKeepsBelow(b: B.Three)
    requires AllBelow(b)
    ensures AllBelow(B.ShedOne(b).0) && B.ShedOne(b).0.segmentMax == b.segmentMax
  {
  }

  lemma {:induction false} ShedKeepsBelow(b: B.Three, len: nat)
    requires AllBelow(b)
    ensures AllBelow(B.ShedUntil(b, len).0) && B.ShedUntil(b, len).0.segmentMax == b.segmentMax
    decreases B.SegmentCount(b)
  {
    hide AllBelow, B.ShedOne, B.SegmentCount;
    if b.stored + len > b.maxTotal && B.ShedOne(b).1 {
      ShedOneKeepsBelow(b);
      ShedKeepsBelow(B.ShedOne(b).0, len);
    } else {
      ShedOneKeepsBelow(b);
    }
  }

  lemma EnqueueKeepsBelow(b: B.Three, ev: B.Event)
    requires AllBelow(b)
    ensures AllBelow(B.Enqueue(b, ev)) && B.Enqueue(b, ev).segmentMax == b.segmentMax
  {
    var line := B.LineFor(b, ev);
    ShedKeepsBelow(b, |line|);
    var b1 := B.ShedUntil(b, |line|).0;
    AppendRotates(b1.queues[ev.cls.ShedPriority()], line, b.nextSeq, b.segmentMax);
    hide B.ShedUntil, Q.Append;
  }

  lemma CommitClassKeepsBelow(b: B.Three, c: nat, taken: (nat, nat))
    requires AllBelow(b) && c < 3
    ensures AllBelow(B.CommitClass(b, c, taken)) && B.CommitClass(b, c, taken).segmentMax == b.segmentMax
  {
    var q := b.queues[c];
    ReclaimKeepsActive(q.(consumedEntries := q.consumedEntries + taken.0, consumedBytes := q.consumedBytes + taken.1));
    hide Q.Reclaim;
  }

  lemma CommitKeepsBelow(b: B.Three, batch: Batch)
    requires AllBelow(b) && |batch.taken| == 3
    ensures AllBelow(B.Commit(b, batch)) && B.Commit(b, batch).segmentMax == b.segmentMax
  {
    hide AllBelow, B.CommitClass;
    CommitClassKeepsBelow(b, 0, batch.taken[0]);
    var b1 := B.CommitClass(b, 0, batch.taken[0]);
    CommitClassKeepsBelow(b1, 1, batch.taken[1]);
    CommitClassKeepsBelow(B.CommitClass(b1, 1, batch.taken[1]), 2, batch.taken[2]);
  }

  /** Over every run of the agent, legal or not, no active segment reaches the limit. */
  lemma {:induction false} SegmentsStayBelow(a: State, steps: seq<Step>)
    requires AllBelow(a.buf)
    ensures AllBelow(Run(a, steps).buf) && Run(a, steps).buf.segmentMax == a.buf.segmentMax
  {
    hide AllBelow, B.Enqueue, B.Commit, ReadFlight, ArriveFlight, ArriveLog;
    if steps != [] {
      var before := Run(a, steps[..|steps| - 1]);
      SegmentsStayBelow(a, steps[..|steps| - 1]);
      match steps[|steps| - 1]
      case Arrive(ev) => EnqueueKeepsBelow(before.buf, ev);
      case Read =>
      case Answer(r) => if before.flight.Some? { CommitKeepsBelow(before.buf, before.flight.value.batch); }
      case Heartbeat => HeartbeatKeepsBelow(before.buf);
    }
  }

  lemma HeartbeatKeepsBelow(b: B.Three)
    requires AllBelow(b)
    ensures AllBelow(B.TakeDelta(b).0)
  {
  }
}
