/** Arrival order: what keeps the three class queues sorted by the global sequence, so that
replay is oldest-first across classes and segment names can be re-sorted after a restart. */
module Ordering {
  import opened Lines
  import opened LineFormat
  import opened Replay
  import Q = SegmentQueue
  import B = BufferModel

  function SeqOf(line: string): nat {
    match ParseLine(line)
    case Some(rec) => rec.seq_
    case None => 0
  }

  /** Every line parses, and sequences strictly ascend below a bound. */
  ghost predicate SortedLines(ls: seq<string>, bound: nat) {
    && (forall i | 0 <= i < |ls| :: ParseLine(ls[i]).Some? && SeqOf(ls[i]) < bound)
    && (forall i, j | 0 <= i < j < |ls| :: SeqOf(ls[i]) < SeqOf(ls[j]))
  }

  /** A segment is named after the sequence of its first line. */
  ghost predicate Named(s: Q.Segment) {
    Complete(s.file) != [] && s.name == SegmentName(SeqOf(Complete(s.file)[0]))
  }

  ghost predicate TidySegments(segs: seq<Q.Segment>, bound: nat) {
    SortedLines(Q.LinesOf(segs), bound) && forall s | s in segs :: Named(s)
  }

  ghost predicate DistinctLines(a: seq<string>, b: seq<string>) {
    forall i, j | 0 <= i < |a| && 0 <= j < |b| :: SeqOf(a[i]) != SeqOf(b[j])
  }

  function StoredLines(b: B.Three, c: nat): seq<string>
    requires c < 3
  {
    Q.LinesOf(Q.Segs(b.queues[c]))
  }

  ghost predicate Tidy(b: B.Three) {
    && (forall c | 0 <= c < 3 :: TidySegments(Q.Segs(b.queues[c]), b.nextSeq))
    && (forall c, d | 0 <= c < d < 3 :: DistinctLines(StoredLines(b, c), StoredLines(b, d)))
    && b.nextSeq <= U64_MAX + 1
  }

  // ----------------------------------------------------------------- preservation

  lemma SuffixSorted(ls: seq<string>, n: nat, bound: nat, bound': nat)
    requires SortedLines(ls, bound) && n <= |ls| && bound <= bound'
    ensures SortedLines(ls[n..], bound')
  {
    hide SeqOf, ParseLine;
    forall i, j | 0 <= i < j < |ls[n..]| ensures SeqOf(ls[n..][i]) < SeqOf(ls[n..][j]) {
      assert ls[n..][i] == ls[n + i] && ls[n..][j] == ls[n + j];
    }
  }

  lemma FrontRemovedTidy(before: Q.Queue, after: Q.Queue, bound: nat) returns (m: nat)
    requires Q.FrontRemoved(before, after) && TidySegments(Q.Segs(before), bound)
    ensures TidySegments(Q.Segs(after), bound)
    ensures m <= |Q.LinesOf(Q.Segs(before))|
    ensures Q.LinesOf(Q.Segs(after)) == Q.LinesOf(Q.Segs(before))[m..]
  {
    var segs := Q.Segs(before);
    var n: nat :| n <= |segs| && Q.Segs(after) == segs[n..];
    assert segs == segs[..n] + segs[n..];
    Q.LinesOfAppend(segs[..n], segs[n..]);
    m := |Q.LinesOf(segs[..n])|;
    SuffixSorted(Q.LinesOf(segs), m, bound, bound);
  }

  lemma DistinctSuffix(a: seq<string>, m: nat, b: seq<string>, n: nat)
    requires DistinctLines(a, b) && m <= |a| && n <= |b|
    ensures DistinctLines(a[m..], b[n..])
  {
    hide SeqOf;
    forall i, j | 0 <= i < |a[m..]| && 0 <= j < |b[n..]| ensures SeqOf(a[m..][i]) != SeqOf(b[n..][j]) {
      assert a[m..][i] == a[m + i] && b[n..][j] == b[n + j];
    }
  }

  /** Removing segments from the fronts of any classes keeps a buffer tidy. */
  lemma {:induction false} RemovalKeepsTidy(b: B.Three, b': B.Three)
    requires Tidy(b) && b'.nextSeq == b.nextSeq
    requires forall c | 0 <= c < 3 :: Q.FrontRemoved(b.queues[c], b'.queues[c])
    ensures Tidy(b')
  {
    hide TidySegments, Q.FrontRemoved, DistinctLines, Q.LinesOf, Q.Segs;
    var m0 := FrontRemovedTidy(b.queues[0], b'.queues[0], b.nextSeq);
    var m1 := FrontRemovedTidy(b.queues[1], b'.queues[1], b.nextSeq);
    var m2 := FrontRemovedTidy(b.queues[2], b'.queues[2], b.nextSeq);
    DistinctSuffix(StoredLines(b, 0), m0, StoredLines(b, 1), m1);
    DistinctSuffix(StoredLines(b, 0), m0, StoredLines(b, 2), m2);
    DistinctSuffix(StoredLines(b, 1), m1, StoredLines(b, 2), m2);
  }

  lemma {:induction false} ShedKeepsTidy(b: B.Three, len: nat)
    requires B.Wf(b) && Tidy(b) && len <= b.maxTotal
    ensures Tidy(B.ShedUntil(b, len).0)
    decreases B.SegmentCount(b)
  {
    hide B.Wf, Tidy, B.ShedOne;
    if b.stored + len > b.maxTotal {
      var c := B.ShedOneSpec(b);
      if B.AllEmpty(b) { B.EmptyStoresNothing(b); }
      var b1 := B.ShedOne(b).0;
      ShedOnceRemoves(b, b1, c);
      RemovalKeepsTidy(b, b1);
      B.KeepsLimits(b, b1, c);
      ShedKeepsTidy(b1, len);
    }
  }

  lemma ShedOnceRemoves(b: B.Three, b1: B.Three, c: nat)
    requires c < 3 && Q.Segs(b.queues[c]) != [] && B.Shed(b, b1, c)
    ensures forall d | 0 <= d < 3 :: Q.FrontRemoved(b.queues[d], b1.queues[d])
    ensures b1.nextSeq == b.nextSeq
  {
    forall d | 0 <= d < 3 ensures Q.FrontRemoved(b.queues[d], b1.queues[d]) {
      if d == c {
        assert Q.Segs(b1.queues[d]) == Q.Segs(b.queues[d])[1..];
      } else {
        assert Q.Segs(b1.queues[d]) == Q.Segs(b.queues[d])[0..];
      }
    }
  }

  /** The appended line carries the sequence number no stored line has reached. */
  lemma AppendKeepsTidy(q: Q.Queue, seq_: nat, json: string, segmentMax: nat)
    requires Q.Wf(q) && seq_ <= U64_MAX && IsJsonObject(json)
    requires TidySegments(Q.Segs(q), seq_)
    ensures var line := FormatLine(seq_, json); var q' := Q.Append(q, line, seq_, segmentMax);
      TidySegments(Q.Segs(q'), seq_ + 1) && Q.LinesOf(Q.Segs(q')) == Q.LinesOf(Q.Segs(q)) + [line]
    ensures SeqOf(FormatLine(seq_, json)) == seq_
  {
    var line := FormatLine(seq_, json);
    ParseInvertsFormat(seq_, json);
    hide FormatLine, IsLine, ParseLine, SegmentName, Q.LinesOf, Q.Append, Complete, Torn, Q.Wf;
    Q.AppendAddsLine(q, line, seq_, segmentMax);
    SortedSnoc(Q.LinesOf(Q.Segs(q)), line, seq_);
    AppendKeepsNames(q, line, seq_, segmentMax);
  }

  lemma AppendKeepsNames(q: Q.Queue, line: string, seq_: nat, segmentMax: nat)
    requires Q.WfSegments(q) && IsLine(line) && SeqOf(line) == seq_
    requires forall s | s in Q.Segs(q) :: Named(s)
    ensures forall s | s in Q.Segs(Q.Append(q, line, seq_, segmentMax)) :: Named(s)
  {
    hide IsLine, SeqOf, SegmentName, Q.LinesOf, Q.Append, Complete, Torn, Q.WfSegment;
    var grown := Q.AppendGrows(q, line, seq_, segmentMax);
    Q.LinesOfOne(grown);
    if q.active.Some? {
      assert q.active.value in Q.Segs(q);
      Q.LinesOfOne(q.active.value);
    } else {
      assert Q.LinesOf([]) == [] by { NoLines(); }
    }
    assert Named(grown);
    forall s | s in q.segments + [grown] ensures Named(s) {
      if s in q.segments { assert s in Q.Segs(q); }
    }
  }

  lemma NoLines()
    ensures Q.LinesOf([]) == []
  {
  }

  lemma SortedSnoc(ls: seq<string>, line: string, bound: nat)
    requires SortedLines(ls, bound) && ParseLine(line).Some? && SeqOf(line) == bound
    ensures SortedLines(ls + [line], bound + 1)
  {
    hide SeqOf, ParseLine;
  }

  lemma DistinctSnoc(a: seq<string>, b: seq<string>, line: string, bound: nat)
    requires DistinctLines(a, b) && SortedLines(b, bound) && SeqOf(line) == bound
    ensures DistinctLines(a + [line], b) && DistinctLines(b, a + [line])
  {
    hide SeqOf, ParseLine;
  }

  lemma GrowBound(segs: seq<Q.Segment>, bound: nat)
    requires TidySegments(segs, bound)
    ensures TidySegments(segs, bound + 1)
  {
    hide SeqOf, ParseLine, Named, Q.LinesOf;
  }

  lemma {:induction false} AppendTidyBuffer(b: B.Three, c: nat, json: string, b': B.Three)
    requires B.Wf(b) && Tidy(b) && c < 3 && b.nextSeq <= U64_MAX && IsJsonObject(json)
    requires b'.queues == b.queues[c := Q.Append(b.queues[c], FormatLine(b.nextSeq, json), b.nextSeq, b.segmentMax)]
    requires b'.nextSeq == b.nextSeq + 1
    ensures Tidy(b')
  {
    var line := FormatLine(b.nextSeq, json);
    hide FormatLine, IsJsonObject, TidySegments, Q.Append, Q.Segs, Q.Wf, Q.LinesOf, SeqOf, B.StoredBytes;
    AppendKeepsTidy(b.queues[c], b.nextSeq, json, b.segmentMax);
    forall d | 0 <= d < 3 ensures TidySegments(Q.Segs(b'.queues[d]), b'.nextSeq) {
      if d != c { GrowBound(Q.Segs(b.queues[d]), b.nextSeq); }
    }
    assert StoredLines(b', c) == StoredLines(b, c) + [line];
    assert forall d | 0 <= d < 3 && d != c :: StoredLines(b', d) == StoredLines(b, d);
    forall d, e | 0 <= d < e < 3 ensures DistinctLines(StoredLines(b', d), StoredLines(b', e)) {
      assert DistinctLines(StoredLines(b, d), StoredLines(b, e));
      if d == c { LinesSorted(b, e); DistinctSnoc(StoredLines(b, d), StoredLines(b, e), line, b.nextSeq); }
      if e == c {
        LinesSorted(b, d);
        DistinctFlip(StoredLines(b, d), StoredLines(b, e));
        DistinctSnoc(StoredLines(b, e), StoredLines(b, d), line, b.nextSeq);
      }
    }
  }

  lemma LinesSorted(b: B.Three, c: nat)
    requires c < 3 && Tidy(b)
    ensures SortedLines(StoredLines(b, c), b.nextSeq)
  {
  }

  lemma DistinctFlip(a: seq<string>, b: seq<string>)
    requires DistinctLines(a, b)
    ensures DistinctLines(b, a)
  {
    hide SeqOf;
  }

  lemma SameQueues(b: B.Three, b': B.Three)
    requires Tidy(b) && b'.queues == b.queues && b'.nextSeq == b.nextSeq
    ensures Tidy(b')
  {
    hide TidySegments, DistinctLines, Q.LinesOf, Q.Segs;
    assert forall c | 0 <= c < 3 :: StoredLines(b', c) == StoredLines(b, c);
  }

  /** Every event, accepted or refused, keeps the buffer tidy. */
  lemma {:induction false} EnqueueKeepsTidy(b: B.Three, ev: B.Event)
    requires B.Wf(b) && Tidy(b) && b.nextSeq <= U64_MAX && IsJsonObject(ev.json)
    ensures Tidy(B.Enqueue(b, ev))
  {
    var line, c := B.LineFor(b, ev), ev.cls.ShedPriority();
    hide FormatLine, IsJsonObject, B.ShedUntil, B.Wf, B.ShedBy, TidySegments, DistinctLines;
    hide Q.Append, Q.Segs, Q.LinesOf;
    if |line| <= b.maxTotal {
      var d := B.ShedUntilSpec(b, |line|);
      ShedKeepsTidy(b, |line|);
      var b1 := B.ShedUntil(b, |line|).0;
      B.ShedByKeeps(b, b1, d);
      AppendTidyBuffer(b1, c, ev.json, B.Enqueue(b, ev));
    } else {
      SameQueues(b, B.AddDrops(b, c, 1));
    }
  }

  /** A commit removes whole segments only. */
  lemma {:induction false} CommitKeepsTidy(b: B.Three, batch: Batch)
    requires B.Wf(b) && Tidy(b) && B.TakesPrefixes(b, batch.taken)
    ensures Tidy(B.Commit(b, batch))
  {
    hide B.Wf, Tidy, B.Commit;
    B.CommitTakenSpec(b, batch);
    RemovalKeepsTidy(b, B.Commit(b, batch));
  }

  // -------------------------------------------------------------- oldest first

  /** One item per line, for lines that all parse. */
  function OnePerLine(cls: nat, ls: seq<string>): seq<Item>
    requires forall l | l in ls :: ParseLine(l).Some?
  {
    seq(|ls|, i requires 0 <= i < |ls| => Item(cls, ParseLine(ls[i]).value, 1, |ls[i]|))
  }

  lemma {:induction false} ItemsOfParsed(cls: nat, ls: seq<string>)
    requires forall l | l in ls :: ParseLine(l).Some?
    ensures ItemsOf(cls, ls) == OnePerLine(cls, ls)
  {
    hide ParseLine;
    if ls != [] {
      ItemsOfParsed(cls, ls[1..]);
      assert OnePerLine(cls, ls) == [Item(cls, ParseLine(ls[0]).value, 1, |ls[0]|)] + OnePerLine(cls, ls[1..]);
    }
  }

  lemma {:induction false} PendingSorted(b: B.Three, c: nat)
    requires B.Wf(b) && Tidy(b) && c < 3
    ensures SortedLines(B.Pending(b, c), b.nextSeq)
    ensures forall l | l in B.Pending(b, c) :: ParseLine(l).Some?
    ensures Ascending(ItemsOf(c, B.Pending(b, c)))
  {
    hide SeqOf, ParseLine, Q.LinesOf;
    var k := b.queues[c].consumedEntries;
    SuffixSorted(StoredLines(b, c), k, b.nextSeq, b.nextSeq);
    ItemsOfParsed(c, B.Pending(b, c));
    ParsedAscend(c, B.Pending(b, c), b.nextSeq);
  }

  lemma ParsedAscend(c: nat, ls: seq<string>, bound: nat)
    requires SortedLines(ls, bound) && forall l | l in ls :: ParseLine(l).Some?
    ensures Ascending(OnePerLine(c, ls))
  {
    hide ParseLine;
  }

  lemma StreamsDistinct(b: B.Three, c: nat, d: nat)
    requires B.Wf(b) && Tidy(b) && c < d < 3
    ensures forall i, j | 0 <= i < |B.StreamsOf(b)[c]| && 0 <= j < |B.StreamsOf(b)[d]| ::
      B.StreamsOf(b)[c][i].rec.seq_ != B.StreamsOf(b)[d][j].rec.seq_
  {
    hide ParseLine, Q.LinesOf, ItemsOf;
    var p, q := B.Pending(b, c), B.Pending(b, d);
    PendingSorted(b, c);
    PendingSorted(b, d);
    ItemsOfParsed(c, p);
    ItemsOfParsed(d, q);
    assert DistinctLines(StoredLines(b, c), StoredLines(b, d));
    DistinctSuffix(StoredLines(b, c), b.queues[c].consumedEntries, StoredLines(b, d), b.queues[d].consumedEntries);
    forall i, j | 0 <= i < |p| && 0 <= j < |q|
      ensures OnePerLine(c, p)[i].rec.seq_ != OnePerLine(d, q)[j].rec.seq_
    {
      assert SeqOf(p[i]) != SeqOf(q[j]);
    }
  }

  /** The backlog is all pending events of all classes, sorted by arrival: it strictly ascends
  in the global sequence, and its part in each class is that class's pending lines, one event
  a line, in their order. */
  lemma BacklogIsSortedPending(b: B.Three)
    requires B.Wf(b) && Tidy(b)
    ensures Ascending(B.Backlog(b))
    ensures forall c | 0 <= c < 3 ::
      && (forall l | l in B.Pending(b, c) :: ParseLine(l).Some?)
      && OfClass(B.Backlog(b), c) == OnePerLine(c, B.Pending(b, c))
  {
    hide ParseLine, ItemsOf, B.Pending, Tidy, B.Wf, Merge, OfClass;
    B.StreamsAreClassed(b);
    forall c | 0 <= c < 3
      ensures (forall l | l in B.Pending(b, c) :: ParseLine(l).Some?) && Ascending(B.StreamsOf(b)[c])
      ensures OfClass(B.Backlog(b), c) == OnePerLine(c, B.Pending(b, c))
    {
      PendingSorted(b, c);
      ItemsOfParsed(c, B.Pending(b, c));
      MergeKeepsClasses(B.StreamsOf(b), c);
    }
    forall c, d | 0 <= c < d < 3
      ensures forall i, j | 0 <= i < |B.StreamsOf(b)[c]| && 0 <= j < |B.StreamsOf(b)[d]| ::
        B.StreamsOf(b)[c][i].rec.seq_ != B.StreamsOf(b)[d][j].rec.seq_
    {
      StreamsDistinct(b, c, d);
    }
    MergeAscends(B.StreamsOf(b));
  }
}
