/** One event class of the disk buffer, as a value: closed segments, the active segment and
the consumption offsets.  The methods of `ClassQueue` are proved equal to the functions
here; the lemmas say what the functions do to the lines that are still pending. */
module SegmentQueue {
  import opened Basics
  import opened Lines
  import opened LineFormat

  /** `bytes` and `entries` are the in-memory counters, `file` is what is on disk. */
  datatype Segment = Segment(name: string, file: string, bytes: nat, entries: nat)

  datatype Queue = Queue(segments: seq<Segment>, active: Option<Segment>,
                         consumedEntries: nat, consumedBytes: nat)

  const EmptyQueue := Queue([], None, 0, 0)

  /** All segments, oldest first. */
  function Segs(q: Queue): seq<Segment> {
    q.segments + if q.active.Some? then [q.active.value] else []
  }

  function LinesOf(segs: seq<Segment>): seq<string> {
    if segs == [] then [] else Complete(segs[0].file) + LinesOf(segs[1..])
  }

  function Bytes(segs: seq<Segment>): nat {
    if segs == [] then 0 else segs[0].bytes + Bytes(segs[1..])
  }

  function Files(segs: seq<Segment>): seq<string> {
    seq(|segs|, i requires 0 <= i < |segs| => segs[i].file)
  }

  /** The lines not yet consumed. */
  function Pending(q: Queue): seq<string> {
    var ls := LinesOf(Segs(q));
    if q.consumedEntries <= |ls| then ls[q.consumedEntries..] else []
  }

  // ------------------------------------------------------------------ operations

  function Append(q: Queue, line: string, seq_: nat, segmentMax: nat): Queue {
    var seg := if q.active.Some? then q.active.value else Segment(SegmentName(seq_), "", 0, 0);
    var grown := Segment(seg.name, seg.file + line, seg.bytes + |line|, seg.entries + 1);
    var q' := q.(active := Some(grown));
    if grown.bytes >= segmentMax then Rotate(q') else q'
  }

  function Rotate(q: Queue): Queue {
    match q.active
    case None => q
    case Some(seg) => q.(segments := if seg.entries > 0 then q.segments + [seg] else q.segments, active := None)
  }

  /** The new queue and, unless there was nothing to drop, (entries dropped, bytes freed). */
  function DropFront(q: Queue): (Queue, Option<(nat, nat)>) {
    if q.segments == [] && (q.active.None? || q.active.value.entries == 0) then (q, None)
    else
      var r := if q.segments == [] then Rotate(q) else q;
      var seg := r.segments[0];
      (Queue(r.segments[1..], r.active, 0, 0),
       Some((SaturatingSub(seg.entries, q.consumedEntries), seg.bytes)))
  }

  function Consume(q: Queue, seg: Segment): Queue {
    Queue(if q.segments == [] then [] else q.segments[1..],
          if q.segments == [] then None else q.active,
          SaturatingSub(q.consumedEntries, seg.entries), SaturatingSub(q.consumedBytes, seg.bytes))
  }

  /** The loop of `advance`: the queue it stops at and the bytes it frees. */
  function Reclaim(q: Queue): (Queue, nat)
    decreases |Segs(q)|
  {
    if q.segments != [] then
      var front := q.segments[0];
      if q.consumedEntries >= front.entries then
        var (q', freed) := Reclaim(Consume(q, front));
        (q', front.bytes + freed)
      else (q, 0)
    else if q.active.Some? && q.active.value.entries > 0 && q.consumedEntries >= q.active.value.entries then
      (Consume(q, q.active.value), q.active.value.bytes)
    else (q, 0)
  }

  function Advance(q: Queue, entries: nat, bytes: nat): (Queue, nat) {
    Reclaim(q.(consumedEntries := q.consumedEntries + entries, consumedBytes := q.consumedBytes + bytes))
  }

  // ------------------------------------------------------------------- invariant

  ghost predicate WfSegment(s: Segment) {
    && Torn(s.file) == []
    && s.bytes == |s.file|
    && s.entries == |Complete(s.file)| > 0
  }

  ghost predicate WfSegments(q: Queue) {
    forall s | s in Segs(q) :: WfSegment(s)
  }

  /** Entry and byte offsets name the same position. */
  ghost predicate Aligned(q: Queue) {
    var ls := LinesOf(Segs(q));
    q.consumedEntries <= |ls| && q.consumedBytes == Size(ls[..q.consumedEntries])
  }

  /** The representation invariant: a fully consumed segment is never kept. */
  ghost predicate Wf(q: Queue) {
    && WfSegments(q)
    && Aligned(q)
    && (if Segs(q) == [] then q.consumedEntries == 0 else q.consumedEntries < Segs(q)[0].entries)
  }

  /** Whole segments were removed at the front, nothing else. */
  ghost predicate FrontRemoved(before: Queue, after: Queue) {
    exists n: nat :: n <= |Segs(before)| && Segs(after) == Segs(before)[n..]
  }

  // ---------------------------------------------------------------------- lemmas

  lemma {:induction false} LinesOfAppend(a: seq<Segment>, b: seq<Segment>)
    ensures LinesOf(a + b) == LinesOf(a) + LinesOf(b)
    ensures Bytes(a + b) == Bytes(a) + Bytes(b)
  {
    if a == [] {
      assert a + b == b;
    } else {
      assert (a + b)[1..] == a[1..] + b;
      LinesOfAppend(a[1..], b);
    }
  }

  lemma {:induction false} LinesOfOne(s: Segment)
    ensures LinesOf([s]) == Complete(s.file) && Bytes([s]) == s.bytes
  {
    assert LinesOf([s]) == Complete(s.file) + LinesOf([]);
    assert [s][1..] == [];
  }

  lemma {:induction false} LinesOfFront(segs: seq<Segment>)
    requires segs != [] && WfSegment(segs[0])
    ensures LinesOf(segs) == Complete(segs[0].file) + LinesOf(segs[1..])
    ensures segs[0].entries <= |LinesOf(segs)|
    ensures LinesOf(segs)[..segs[0].entries] == Complete(segs[0].file)
    ensures LinesOf(segs)[segs[0].entries..] == LinesOf(segs[1..])
    ensures Size(Complete(segs[0].file)) == segs[0].bytes
  {
    CompleteCovers(segs[0].file);
  }

  lemma {:induction false} BytesAreFiles(segs: seq<Segment>)
    requires forall s | s in segs :: WfSegment(s)
    ensures Bytes(segs) == Size(LinesOf(segs))
    ensures segs != [] ==> Bytes(segs) > 0 && LinesOf(segs) != []
  {
    if segs != [] {
      LinesOfFront(segs);
      BytesAreFiles(segs[1..]);
      SizeAppend(Complete(segs[0].file), LinesOf(segs[1..]));
    }
  }

  /** Appending adds exactly one pending line, at the end, and its length to the stored bytes. */
  lemma AppendAddsLine(q: Queue, line: string, seq_: nat, segmentMax: nat)
    requires Wf(q) && IsLine(line)
    ensures var q' := Append(q, line, seq_, segmentMax);
      && Wf(q')
      && LinesOf(Segs(q')) == LinesOf(Segs(q)) + [line]
      && Pending(q') == Pending(q) + [line]
      && Bytes(Segs(q')) == Bytes(Segs(q)) + |line|
  {
    hide Size, IsLine, LinesOf, Bytes, Complete, Torn, Append;
    var q' := Append(q, line, seq_, segmentMax);
    var grown := AppendGrows(q, line, seq_, segmentMax);
    var before := if q.active.Some? then [q.active.value] else [];
    assert Segs(q) == q.segments + before && Segs(q') == q.segments + [grown];
    LinesOfAppend(q.segments, before);
    LinesOfAppend(q.segments, [grown]);
    Assoc(LinesOf(q.segments), LinesOf(before), [line]);
    var ls := LinesOf(Segs(q));
    TakeOfLonger(ls, line, q.consumedEntries);
    if Segs(q) != [] { assert Segs(q')[0] == if |Segs(q)| > 1 || before == [] then Segs(q)[0] else grown; }
    if before != [] { LinesOfAppend(q.segments, before); LinesOfOne(before[0]); }
  }

  lemma TakeOfLonger(ls: seq<string>, line: string, k: nat)
    requires k <= |ls|
    ensures (ls + [line])[..k] == ls[..k] && (ls + [line])[k..] == ls[k..] + [line]
  {
  }

  /** The segment an append writes to, and what becomes of it. */
  lemma AppendGrows(q: Queue, line: string, seq_: nat, segmentMax: nat) returns (grown: Segment)
    requires WfSegments(q) && IsLine(line)
    ensures var q' := Append(q, line, seq_, segmentMax);
      && Segs(q') == q.segments + [grown]
      && q'.consumedEntries == q.consumedEntries && q'.consumedBytes == q.consumedBytes
    ensures WfSegment(grown)
    ensures var before := if q.active.Some? then [q.active.value] else [];
      && LinesOf([grown]) == LinesOf(before) + [line]
      && Bytes([grown]) == Bytes(before) + |line|
      && grown.entries == (if q.active.Some? then q.active.value.entries else 0) + 1
      && grown.name == (if q.active.Some? then q.active.value.name else SegmentName(seq_))
  {
    var seg := if q.active.Some? then q.active.value else Segment(SegmentName(seq_), "", 0, 0);
    grown := Segment(seg.name, seg.file + line, seg.bytes + |line|, seg.entries + 1);
    assert q.active.Some? ==> seg in Segs(q);
    OneLine(line);
    LinesOfOne(grown);
    LinesOfOne(seg);
    CompleteAppend(seg.file, line);
    assert Segs(Append(q, line, seq_, segmentMax)) == q.segments + [grown];
  }

  /** Dropping removes exactly the oldest segment and reports its pending entries and its bytes. */
  lemma DropFrontRemovesOldest(q: Queue)
    requires Wf(q)
    ensures var (q', r) := DropFront(q);
      && Wf(q')
      && (Segs(q) == [] ==> r == None && q' == q)
      && (Segs(q) != [] ==>
            && r == Some((Segs(q)[0].entries - q.consumedEntries, Segs(q)[0].bytes))
            && 0 < r.value.0 <= |Pending(q)|
            && Segs(q') == Segs(q)[1..]
            && Pending(q') == Pending(q)[r.value.0..]
            && Bytes(Segs(q)) == Bytes(Segs(q')) + r.value.1)
  {
    if Segs(q) != [] {
      assert WfSegment(Segs(q)[0]);
      LinesOfFront(Segs(q));
      var (q', r) := DropFront(q);
      assert Segs(q') == Segs(q)[1..];
      var ls, n := LinesOf(Segs(q)), Segs(q)[0].entries;
      assert ls[q.consumedEntries..][n - q.consumedEntries..] == ls[n..];
      assert LinesOf(Segs(q'))[..0] == [];
      forall s | s in Segs(q') ensures WfSegment(s) { assert s in Segs(q); }
      if Segs(q') != [] { assert Segs(q')[0] in Segs(q); }
    }
  }

  lemma ConsumeFront(q: Queue)
    requires WfSegments(q) && Aligned(q)
    requires Segs(q) != [] && q.consumedEntries >= Segs(q)[0].entries
    ensures var q1 := Consume(q, Segs(q)[0]);
      && Segs(q1) == Segs(q)[1..]
      && WfSegments(q1) && Aligned(q1)
      && Pending(q1) == Pending(q)
      && q1.consumedEntries == q.consumedEntries - Segs(q)[0].entries
      && Bytes(Segs(q)) == Segs(q)[0].bytes + Bytes(Segs(q1))
  {
    var segs := Segs(q);
    var ls, c, f := LinesOf(segs), q.consumedEntries, segs[0].entries;
    LinesOfFront(segs);
    assert Segs(Consume(q, segs[0])) == segs[1..];
    assert ls[..c] == ls[..f] + ls[f..][..c - f];
    SizeAppend(ls[..f], ls[f..][..c - f]);
    assert ls[c..] == ls[f..][c - f..];
  }

  lemma ReclaimStep(q: Queue)
    requires WfSegments(q) && Segs(q) != [] && q.consumedEntries >= Segs(q)[0].entries
    ensures var q1 := Consume(q, Segs(q)[0]);
      Segs(q1) == Segs(q)[1..] && WfSegments(q1)
      && Reclaim(q) == (Reclaim(q1).0, Segs(q)[0].bytes + Reclaim(q1).1)
  {
    var q1 := Consume(q, Segs(q)[0]);
    assert Segs(q1) == Segs(q)[1..];
    assert WfSegment(Segs(q)[0]);
    if q.segments == [] { assert Reclaim(q1) == (q1, 0); }
  }

  /** The reclaiming loop keeps every pending line, deletes only whole consumed segments, and
  stops at a well-formed queue. */
  lemma {:induction false} ReclaimExact(q: Queue) returns (n: nat)
    requires WfSegments(q) && Aligned(q)
    ensures var (q', freed) := Reclaim(q);
      && Wf(q')
      && Pending(q') == Pending(q)
      && n <= |Segs(q)| && Segs(q') == Segs(q)[n..]
      && |LinesOf(Segs(q)[..n])| <= q.consumedEntries
      && Bytes(Segs(q)) == freed + Bytes(Segs(q'))
    decreases |Segs(q)|
  {
    var segs := Segs(q);
    if segs == [] || q.consumedEntries < segs[0].entries {
      n := 0;
      assert segs[0..] == segs;
    } else {
      ConsumeFront(q);
      ReclaimStep(q);
      n := ReclaimExact(Consume(q, segs[0]));
      DropOneMore(segs, n);
      n := n + 1;
    }
  }

  lemma DropOneMore(segs: seq<Segment>, n: nat)
    requires segs != [] && n <= |segs[1..]| && WfSegment(segs[0])
    ensures segs[n + 1..] == segs[1..][n..]
    ensures |LinesOf(segs[..n + 1])| == segs[0].entries + |LinesOf(segs[1..][..n])|
  {
    assert segs[..n + 1][1..] == segs[1..][..n];
  }

  /** Committing a prefix that was read removes exactly that prefix from what is pending. */
  lemma AdvanceExact(q: Queue, k: nat) returns (n: nat)
    requires Wf(q) && k <= |Pending(q)|
    ensures var (q', freed) := Advance(q, k, Size(Pending(q)[..k]));
      && Wf(q')
      && Pending(q') == Pending(q)[k..]
      && n <= |Segs(q)| && Segs(q') == Segs(q)[n..]
      && |LinesOf(Segs(q)[..n])| <= q.consumedEntries + k
      && Bytes(Segs(q)) == freed + Bytes(Segs(q'))
  {
    hide LinesOf, Bytes, Size, Complete, Reclaim, WfSegment;
    var ls, c := LinesOf(Segs(q)), q.consumedEntries;
    var q1 := q.(consumedEntries := c + k, consumedBytes := q.consumedBytes + Size(Pending(q)[..k]));
    SizeShift(ls, c, k);
    n := ReclaimExact(q1);
  }

  /** Without alignment the loop still moves by entries alone, past the end if told to. */
  lemma {:induction false} ReclaimCounts(q: Queue)
    requires WfSegments(q)
    ensures var q' := Reclaim(q).0;
      && WfSegments(q')
      && |LinesOf(Segs(q))| - q.consumedEntries == |LinesOf(Segs(q'))| - q'.consumedEntries
    decreases |Segs(q)|
  {
    var segs := Segs(q);
    if segs != [] && q.consumedEntries >= segs[0].entries {
      LinesOfFront(segs);
      ReclaimStep(q);
      ReclaimCounts(Consume(q, segs[0]));
    }
  }
}
