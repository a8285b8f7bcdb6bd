/** The disk ring buffer itself: methods that update the queues and counters in place. */
module DiskBufferModule {
  import opened Basics
  import opened LineFormat
  import opened Replay
  import opened ClassQueueModule
  import opened ClassReaderModule
  import B = BufferModel
  import Q = SegmentQueue

  /** Three readers, one a class, that share no state. */
  ghost predicate Apart(readers: seq<ClassReader>)
    reads readers
  {
    && |readers| == 3
    && readers[0] != readers[1] && readers[0] != readers[2] && readers[1] != readers[2]
    && (forall i | 0 <= i < 3 :: readers[i].Valid() && readers[i].classIdx == i)
  }

  ghost function AheadOf(readers: seq<ClassReader>): Streams
    reads readers
    requires Apart(readers)
  {
    [readers[0].Ahead(), readers[1].Ahead(), readers[2].Ahead()]
  }

  /** The reader whose next entry has the smallest sequence. */
  method PickReader(readers: seq<ClassReader>) returns (best: Option<nat>)
    requires Apart(readers)
    modifies readers
    ensures Apart(readers) && AheadOf(readers) == old(AheadOf(readers))
    ensures best == Pick(AheadOf(readers), 3)
    ensures best.Some? ==> best.value < 3 && readers[best.value].peeked.Some?
  {
    hide UnreadAt, ItemsFrom;
    best := None;
    for i := 0 to 3
      invariant Apart(readers) && AheadOf(readers) == old(AheadOf(readers))
      invariant best == Pick(AheadOf(readers), i)
      invariant forall k | 0 <= k < i :: readers[k].peeked.None? ==> readers[k].Ahead() == []
    {
      var entry := readers[i].Peek();
      assert AheadOf(readers)[i] == readers[i].Ahead();
      if entry.Some? {
        if best.None? || entry.value.rec.seq_ < readers[best.value].peeked.value.rec.seq_ {
          best := Some(i);
        }
      }
    }
  }

  method TakeFrom(readers: seq<ClassReader>, i: nat) returns (entry: ReadEntry, skipped: (nat, nat))
    requires Apart(readers) && i < 3 && readers[i].peeked.Some?
    modifies readers
    ensures Apart(readers) && old(AheadOf(readers))[i] != []
    ensures AheadOf(readers) == Pop(old(AheadOf(readers)), i)
    ensures old(AheadOf(readers))[i][0] == Item(i, entry.rec, skipped.0 + 1, skipped.1 + entry.lineLen)
  {
    hide UnreadAt, ItemsFrom;
    assert AheadOf(readers)[i] == readers[i].Ahead() != [];
    ghost var before := AheadOf(readers);
    entry, skipped := readers[i].TakeWithSkipped();
    assert AheadOf(readers) == before[i := before[i][1..]];
  }

  lemma NothingAhead(hs: Streams, n: nat)
    requires n <= |Merge(hs)| && Pick(After(hs, n), 3).None?
    ensures n == |Merge(hs)|
  {
    if n < |Merge(hs)| { AfterOneMore(hs, n); }
  }

  lemma NextIsHead(hs: Streams, n: nat)
    requires n <= |Merge(hs)| && Classed(hs) && Pick(After(hs, n), 3).Some?
    ensures var i := Pick(After(hs, n), 3).value;
      && n < |Merge(hs)|
      && After(hs, n)[i] != []
      && Merge(hs)[n] == After(hs, n)[i][0]
      && Merge(hs)[n].cls == i
      && After(hs, n + 1) == Pop(After(hs, n), i)
  {
    if n == |Merge(hs)| {
      AfterAll(hs);
    } else {
      AfterOneMore(hs, n);
      AfterIsRest(hs, n, 0);
      var i := Pick(After(hs, n), 3).value;
      assert After(hs, n)[i][0] in After(hs, n)[i];
    }
  }

  /** What the next turn of the batch loop does to the batch. */
  lemma NextTurn(hs: Streams, n: nat)
    requires n <= |Merge(hs)| && Classed(hs) && Pick(After(hs, n), 3).Some?
    ensures var i, items := Pick(After(hs, n), 3).value, Merge(hs);
      && n < |items|
      && After(hs, n)[i] != [] && After(hs, n + 1) == Pop(After(hs, n), i)
      && items[n] == After(hs, n)[i][0] && items[n].cls == i
      && BatchOf(items[..n + 1]) == Grow(BatchOf(items[..n]), items[n])
      && Cost(items[..n + 1]) == BatchOf(items[..n]).totalEventBytes + |items[n].rec.json| + 1
      && |BatchOf(items[..n]).taken| == 3
  {
    hide Merge, Pick, After, BatchOf, Grow, Cost;
    NextIsHead(hs, n);
    BatchGrowsBy(Merge(hs), n);
    BatchFacts(Merge(hs)[..n]);
    BatchGrows(Merge(hs), n, 0);
  }

  /** The loop of `next_batch`. */
  method FillBatch(readers: seq<ClassReader>, maxEvents: nat, maxBytes: nat) returns (batch: Batch, ghost n: nat)
    requires Apart(readers) && Classed(AheadOf(readers))
    modifies readers
    ensures IsLongest(Merge(old(AheadOf(readers))), n, maxEvents, maxBytes)
    ensures batch == BatchOf(Merge(old(AheadOf(readers)))[..n])
  {
    hide AheadOf, Merge, Pick, After, BatchOf, Cost, Grow;
    ghost var streams := AheadOf(readers);
    ghost var backlog := Merge(streams);
    batch := Batch([], 0, [(0, 0), (0, 0), (0, 0)]);
    n := 0;
    EmptyBatch(streams);
    while |batch.items| < maxEvents
      invariant n <= |backlog| && n <= maxEvents && |batch.items| == n
      invariant Apart(readers) && AheadOf(readers) == After(streams, n)
      invariant batch == BatchOf(backlog[..n])
      invariant Fits(backlog, n, maxEvents, maxBytes)
      decreases maxEvents - n
    {
      var best := PickReader(readers);
      if best.None? {
        NothingAhead(streams, n);
        break;
      }
      var i := best.value;
      NextTurn(streams, n);
      PeekedIsHead(readers, i);
      var cost := |readers[i].peeked.value.rec.json| + 1;
      if batch.items != [] && batch.totalEventBytes + cost > maxBytes {
        assert !Fits(backlog, n + 1, maxEvents, maxBytes);
        break;
      }
      var entry, skipped := TakeFrom(readers, i);
      GrowIs(batch, i, entry, skipped, backlog[n]);
      batch := Batch(batch.items + [entry.rec.json], batch.totalEventBytes + cost,
                     batch.taken[i := (batch.taken[i].0 + 1 + skipped.0,
                                       batch.taken[i].1 + entry.lineLen + skipped.1)]);
      n := n + 1;
    }
    StopsAtFirstMisfit(backlog, n, maxEvents, maxBytes);
  }

  lemma PeekedIsHead(readers: seq<ClassReader>, i: nat)
    requires Apart(readers) && i < 3 && readers[i].peeked.Some?
    ensures AheadOf(readers)[i] != [] && AheadOf(readers)[i][0].rec == readers[i].peeked.value.rec
  {
  }

  class DiskBuffer {
    const maxTotal: nat
    const segmentMax: nat
    /** Indexed by shed priority. */
    const queues: seq<ClassQueue>
    var nextSeq: nat
    var storedBytes: nat
    var dropsTotal: seq<nat>
    var dropsReported: seq<nat>

    ghost predicate Valid()
      reads this
    {
      && |queues| == |dropsTotal| == |dropsReported| == 3
      && queues[0] != queues[1] && queues[0] != queues[2] && queues[1] != queues[2]
    }

    function Snapshot(): B.Three
      reads this, queues
      requires Valid()
    {
      B.Buffer(maxTotal, segmentMax, [queues[0].Snapshot(), queues[1].Snapshot(), queues[2].Snapshot()],
               nextSeq, storedBytes, dropsTotal, dropsReported)
    }

    /** Over the queues recovered from disk, with the numbers the scan produced. */
    constructor (maxTotal: nat, segmentMax: nat, q0: ClassQueue, q1: ClassQueue, q2: ClassQueue,
                 maxSeq: nat, totalBytes: nat)
      requires q0 != q1 && q0 != q2 && q1 != q2
      ensures Valid() && queues == [q0, q1, q2]
      ensures Snapshot() == B.Buffer(maxTotal, segmentMax, [q0.Snapshot(), q1.Snapshot(), q2.Snapshot()],
                                     maxSeq + 1, totalBytes, [0, 0, 0], [0, 0, 0])
    {
      this.maxTotal, this.segmentMax, queues := maxTotal, segmentMax, [q0, q1, q2];
      nextSeq, storedBytes, dropsTotal, dropsReported := maxSeq + 1, totalBytes, [0, 0, 0], [0, 0, 0];
    }

    method Enqueue(event: B.Event)
      requires Valid() && B.Wf(Snapshot())
      requires nextSeq <= U64_MAX && IsJsonObject(event.json)
      modifies this, queues
      ensures Valid() && Snapshot() == B.Enqueue(old(Snapshot()), event)
    {
      hide Q.Wf, Q.Append, Q.DropFront, B.ShedOne, B.StoredBytes, FormatLine;
      var line := FormatLine(nextSeq, event.json);
      var c := event.cls.ShedPriority();
      ParseInvertsFormat(nextSeq, event.json);
      if |line| > maxTotal {
        dropsTotal := dropsTotal[c := dropsTotal[c] + 1];
        return;
      }
      ghost var start := Snapshot();
      while storedBytes + |line| > maxTotal
        invariant Valid() && B.Wf(Snapshot()) && nextSeq == start.nextSeq
        invariant B.ShedUntil(Snapshot(), |line|) == B.ShedUntil(start, |line|)
        decreases B.SegmentCount(Snapshot())
      {
        ghost var before := Snapshot();
        var cls := B.ShedOneSpec(before);
        ghost var d := B.ShedUntilSpec(before, |line|);
        var shed := ShedOne();
        if !shed {
          assert false;  // the give-up branch: nothing left, yet no room
        }
      }
      queues[c].Append(line, nextSeq, segmentMax);
      storedBytes := storedBytes + |line|;
      nextSeq := nextSeq + 1;
    }

    method ShedOne() returns (shed: bool)
      requires Valid()
      modifies this, queues
      ensures Valid() && (Snapshot(), shed) == B.ShedOne(old(Snapshot()))
    {
      for c := 0 to 3
        invariant Valid() && Snapshot() == old(Snapshot())
        invariant B.ShedFrom(Snapshot(), c) == B.ShedOne(old(Snapshot()))
      {
        shed := ShedClass(c);
        if shed {
          return true;
        }
      }
      return false;
    }

    method ShedClass(c: nat) returns (shed: bool)
      requires Valid() && c < 3
      modifies this, queues
      ensures Valid()
      ensures B.ShedFrom(old(Snapshot()), c) == if shed then (Snapshot(), true) else B.ShedFrom(old(Snapshot()), c + 1)
      ensures !shed ==> Snapshot() == old(Snapshot())
    {
      hide Q.DropFront, Q.Segs, B.SegmentCount, SaturatingSub;
      ghost var before := Snapshot();
      var r := queues[c].DropFront();
      assert Snapshot().queues == before.queues[c := queues[c].Snapshot()];
      match r
      case None =>
        NothingDropped(before.queues[c]);
        shed := false;
      case Some((dropped, freed)) =>
        storedBytes := SaturatingSub(storedBytes, freed);
        assert dropped == 0 ==> dropsTotal[c := dropsTotal[c] + dropped] == dropsTotal;
        if dropped > 0 {
          dropsTotal := dropsTotal[c := dropsTotal[c] + dropped];
        }
        shed := true;
    }

    lemma NothingDropped(q: Q.Queue)
      requires Q.DropFront(q).1 == None
      ensures Q.DropFront(q).0 == q
    {
    }

    method OpenReader(c: nat) returns (reader: ClassReader)
      requires Valid() && c < 3 && Q.Wf(queues[c].Snapshot())
      ensures fresh(reader) && reader.Valid() && reader.classIdx == c
      ensures reader.Ahead() == ItemsOf(c, Q.Pending(queues[c].Snapshot()))
    {
      hide Q.Wf, Q.Pending, ItemsFrom, Q.Files;
      var files := queues[c].FileSnapshot();
      ReaderSeesPending(queues[c].Snapshot());
      reader := new ClassReader(c, files, queues[c].consumedBytes);
    }

    method OpenReaders() returns (readers: seq<ClassReader>)
      requires Valid() && B.Wf(Snapshot())
      ensures fresh(readers) && Apart(readers) && AheadOf(readers) == B.StreamsOf(Snapshot())
    {
      hide Q.Wf, Q.Pending, ItemsFrom, ItemsOf, UnreadAt, B.StoredBytes;
      assert forall c | 0 <= c < 3 :: Snapshot().queues[c] == queues[c].Snapshot();
      var r0 := OpenReader(0);
      var r1 := OpenReader(1);
      var r2 := OpenReader(2);
      readers := [r0, r1, r2];
    }

    /** Reads, without consuming, the longest prefix of the backlog within the two limits. */
    method NextBatch(maxEvents: nat, maxBytes: nat) returns (r: Option<Batch>)
      requires Valid() && B.Wf(Snapshot())
      ensures exists n: nat ::
                && IsLongest(B.Backlog(Snapshot()), n, maxEvents, maxBytes)
                && r == if n == 0 then None else Some(BatchOf(B.Backlog(Snapshot())[..n]))
    {
      hide Q.Wf, Q.Pending, ItemsFrom, Merge, B.StoredBytes, BatchOf;
      B.StreamsAreClassed(Snapshot());
      var readers := OpenReaders();
      var batch, n := FillBatch(readers, maxEvents, maxBytes);
      BatchFacts(B.Backlog(Snapshot())[..n]);
      r := if batch.items == [] then None else Some(batch);
    }

    /** Acknowledges a delivered batch. */
    method Commit(batch: Batch)
      requires Valid() && |batch.taken| == 3
      modifies this, queues
      ensures Valid() && Snapshot() == B.Commit(old(Snapshot()), batch)
    {
      hide Q.Advance;
      CommitClass(0, batch.taken[0]);
      CommitClass(1, batch.taken[1]);
      CommitClass(2, batch.taken[2]);
    }

    method CommitClass(c: nat, taken: (nat, nat))
      requires Valid() && c < 3
      modifies this, queues
      ensures Valid() && Snapshot() == B.CommitClass(old(Snapshot()), c, taken)
    {
      hide Q.Advance;
      if taken.0 > 0 || taken.1 > 0 {
        var freed := queues[c].Advance(taken.0, taken.1);
        storedBytes := SaturatingSub(storedBytes, freed);
      }
    }

    method PendingEvents() returns (n: nat)
      requires Valid() && B.Wf(Snapshot())
      ensures n == |B.Pending(Snapshot(), 0)| + |B.Pending(Snapshot(), 1)| + |B.Pending(Snapshot(), 2)|
    {
      n := 0;
      var n0 := queues[0].PendingEntries();
      var n1 := queues[1].PendingEntries();
      var n2 := queues[2].PendingEntries();
      n := n0 + n1 + n2;
    }

    /** Drops per class since the last call. */
    method TakeDropDelta() returns (delta: seq<nat>)
      requires Valid() && B.Wf(Snapshot())
      modifies this
      ensures Valid() && (Snapshot(), delta) == B.TakeDelta(old(Snapshot()))
    {
      delta := [];
      for c := 0 to 3
        invariant Valid() && |delta| == c
        invariant dropsTotal == old(dropsTotal) && nextSeq == old(nextSeq) && storedBytes == old(storedBytes)
        invariant forall i | 0 <= i < 3 :: dropsReported[i] == if i < c then dropsTotal[i] else old(dropsReported)[i]
        invariant forall i | 0 <= i < c :: delta[i] == dropsTotal[i] - old(dropsReported)[i]
      {
        assert B.Wf(old(Snapshot()));
        delta := delta + [dropsTotal[c] - dropsReported[c]];
        dropsReported := dropsReported[c := dropsTotal[c]];
      }
      assert dropsReported == dropsTotal;
      assert delta == [delta[0], delta[1], delta[2]];
      assert delta == B.TakeDelta(old(Snapshot())).1;
    }
  }

  lemma EmptyBatch(hs: Streams)
    ensures After(hs, 0) == hs && BatchOf(Merge(hs)[..0]) == Batch([], 0, [(0, 0), (0, 0), (0, 0)])
  {
    assert Merge(hs)[..0] == [];
  }

  lemma BatchFacts(items: seq<Item>)
    ensures var batch := BatchOf(items);
      |batch.items| == |items| && batch.totalEventBytes == Cost(items) && |batch.taken| == 3
  {
  }

  ghost function Grow(batch: Batch, it: Item): Batch
    requires it.cls < |batch.taken|
  {
    Batch(batch.items + [it.rec.json], batch.totalEventBytes + |it.rec.json| + 1,
          batch.taken[it.cls := (batch.taken[it.cls].0 + it.lines, batch.taken[it.cls].1 + it.bytes)])
  }

  lemma GrowIs(batch: Batch, i: nat, entry: ReadEntry, skipped: (nat, nat), it: Item)
    requires i < |batch.taken| && it == Item(i, entry.rec, skipped.0 + 1, skipped.1 + entry.lineLen)
    ensures Batch(batch.items + [entry.rec.json], batch.totalEventBytes + (|entry.rec.json| + 1),
                  batch.taken[i := (batch.taken[i].0 + 1 + skipped.0, batch.taken[i].1 + entry.lineLen + skipped.1)])
            == Grow(batch, it)
  {
  }

  lemma BatchGrowsBy(items: seq<Item>, n: nat)
    requires n < |items| && items[n].cls < 3
    ensures BatchOf(items[..n + 1]) == Grow(BatchOf(items[..n]), items[n])
  {
    hide OfClass, LineCount, ByteCount, Cost, Jsons;
    BatchGrows(items, n, 0);
    BatchGrows(items, n, 1);
    BatchGrows(items, n, 2);
  }
}
