/** A batch is read under the lock, posted without it, and committed later by counts alone.
In the gap other events may arrive and segments may be shed.  The commit is right exactly
when no segment of a class the batch took from was shed in between. */
module CommitGap {
  import opened Lines
  import Q = SegmentQueue

  /** What can happen to one class queue between the read and the commit. */
  datatype GapOp = Arrive(line: string, seq_: nat, segmentMax: nat) | ShedOldest

  ghost predicate WfOps(ops: seq<GapOp>) {
    forall op | op in ops && op.Arrive? :: IsLine(op.line)
  }

  function Gap(q: Q.Queue, ops: seq<GapOp>): Q.Queue {
    if ops == [] then q
    else
      var before, op := Gap(q, ops[..|ops| - 1]), ops[|ops| - 1];
      match op
      case Arrive(line, seq_, segmentMax) => Q.Append(before, line, seq_, segmentMax)
      case ShedOldest => Q.DropFront(before).0
  }

  function Arrived(ops: seq<GapOp>): seq<string> {
    if ops == [] then []
    else Arrived(ops[..|ops| - 1]) + if ops[|ops| - 1].Arrive? then [ops[|ops| - 1].line] else []
  }

  /** How many pending lines the gap shed. */
  function Lost(q: Q.Queue, ops: seq<GapOp>): nat {
    if ops == [] then 0
    else
      var before := Gap(q, ops[..|ops| - 1]);
      Lost(q, ops[..|ops| - 1])
      + if ops[|ops| - 1].ShedOldest? && Q.DropFront(before).1.Some? then Q.DropFront(before).1.value.0 else 0
  }

  ghost predicate GapOk(q: Q.Queue, ops: seq<GapOp>) {
    && Q.Wf(Gap(q, ops))
    && Lost(q, ops) <= |Q.Pending(q) + Arrived(ops)|
    && Q.Pending(Gap(q, ops)) == (Q.Pending(q) + Arrived(ops))[Lost(q, ops)..]
    && (ShedOldest !in ops ==> Lost(q, ops) == 0)
    && (ShedOldest in ops && Q.Pending(q) != [] ==> Lost(q, ops) > 0)
  }

  lemma GapUnfold(q: Q.Queue, init: seq<GapOp>, op: GapOp)
    ensures var ops, before := init + [op], Gap(q, init);
      && Gap(q, ops) == (match op
           case Arrive(line, seq_, segmentMax) => Q.Append(before, line, seq_, segmentMax)
           case ShedOldest => Q.DropFront(before).0)
      && Arrived(ops) == Arrived(init) + (if op.Arrive? then [op.line] else [])
      && Lost(q, ops) == Lost(q, init)
           + (if op.ShedOldest? && Q.DropFront(before).1.Some? then Q.DropFront(before).1.value.0 else 0)
  {
    hide Q.Append, Q.DropFront;
    assert (init + [op])[..|init|] == init;
  }

  lemma GapArrives(q: Q.Queue, init: seq<GapOp>, line: string, seq_: nat, segmentMax: nat)
    requires GapOk(q, init) && IsLine(line)
    ensures GapOk(q, init + [Arrive(line, seq_, segmentMax)])
  {
    hide Q.Wf, Q.Pending, Q.Append, IsLine, Q.LinesOf, Gap, Lost, Arrived;
    var all, n := Q.Pending(q) + Arrived(init), Lost(q, init);
    GapUnfold(q, init, Arrive(line, seq_, segmentMax));
    Q.AppendAddsLine(Gap(q, init), line, seq_, segmentMax);
    Assoc(Q.Pending(q), Arrived(init), [line]);
    assert (all + [line])[n..] == all[n..] + [line];
  }

  lemma GapSheds(q: Q.Queue, init: seq<GapOp>)
    requires GapOk(q, init)
    ensures GapOk(q, init + [ShedOldest])
  {
    hide Q.Wf, Q.Pending, Q.DropFront, Q.LinesOf, Gap, Lost, Arrived;
    var all, n, before := Q.Pending(q) + Arrived(init), Lost(q, init), Gap(q, init);
    GapUnfold(q, init, ShedOldest);
    assert Arrived(init) + [] == Arrived(init);
    Q.DropFrontRemovesOldest(before);
    if Q.DropFront(before).1.Some? {
      Shift(all, n, Q.DropFront(before).1.value.0);
    } else {
      NothingToDrop(before);
    }
  }

  lemma {:induction false} GapSpec(q: Q.Queue, ops: seq<GapOp>)
    requires Q.Wf(q) && WfOps(ops)
    ensures GapOk(q, ops)
  {
    if ops == [] {
      assert (Q.Pending(q) + [])[0..] == Q.Pending(q);
    } else {
      hide Q.Wf, GapOk, Gap, Lost, Arrived;
      var init, op := ops[..|ops| - 1], ops[|ops| - 1];
      assert ops == init + [op];
      GapSpec(q, init);
      match op
      case Arrive(line, seq_, segmentMax) => GapArrives(q, init, line, seq_, segmentMax);
      case ShedOldest => GapSheds(q, init);
    }
  }

  lemma NothingToDrop(q: Q.Queue)
    requires Q.Wf(q) && Q.DropFront(q).1.None?
    ensures Q.Pending(q) == []
  {
    Q.DropFrontRemovesOldest(q);
  }

  /** What should remain once the first k lines read from q were delivered. */
  function Undelivered(q: Q.Queue, ops: seq<GapOp>, k: nat): seq<string>
    requires k <= |Q.Pending(q)|
  {
    var n := if k > Lost(q, ops) then k else Lost(q, ops);
    if n <= |Q.Pending(q) + Arrived(ops)| then (Q.Pending(q) + Arrived(ops))[n..] else []
  }

  /** The commit leaves a well-formed queue holding exactly the undelivered lines if and only if
  nothing of the class was shed since the batch was read. */
  lemma CommitExactIffNotShed(q: Q.Queue, ops: seq<GapOp>, k: nat)
    requires Q.Wf(q) && WfOps(ops) && 0 < k <= |Q.Pending(q)|
    ensures var q' := Q.Advance(Gap(q, ops), k, Size(Q.Pending(q)[..k])).0;
      (Q.Wf(q') && Q.Pending(q') == Undelivered(q, ops, k)) <==> ShedOldest !in ops
  {
    GapSpec(q, ops);
    var q2, p := Gap(q, ops), Q.Pending(q);
    if ShedOldest !in ops {
      assert (p + Arrived(ops))[..k] == p[..k];
      assert (p + Arrived(ops))[0..] == p + Arrived(ops);
      var n := Q.AdvanceExact(q2, k);
    } else {
      OverAdvance(q2, k, Size(p[..k]));
    }
  }

  /** Advancing by k consumes k pending lines, or leaves an ill-formed queue. */
  lemma OverAdvance(q: Q.Queue, k: nat, bytes: nat)
    requires Q.Wf(q)
    ensures var q' := Q.Advance(q, k, bytes).0;
      Q.Wf(q') ==> |Q.Pending(q')| == |Q.Pending(q)| - k
  {
    hide Q.LinesOf, Q.WfSegment;
    var q1 := q.(consumedEntries := q.consumedEntries + k, consumedBytes := q.consumedBytes + bytes);
    assert Q.Segs(q1) == Q.Segs(q);
    Q.ReclaimCounts(q1);
  }
}
