/** The disk buffer as a value: three class queues, the global sequence counter, the stored
byte count and the drop counters. */
module BufferModel {
  import opened Basics
  import opened Lines
  import opened LineFormat
  import opened Replay
  import Q = SegmentQueue

  datatype EventClass = NetworkActivity | ProcessActivity | Authentication {
    /** Lower is shed first. */
    function ShedPriority(): (p: nat)
      ensures p < 3
    {
      match this
      case NetworkActivity => 0
      case ProcessActivity => 1
      case Authentication => 2
    }
  }

  datatype Event = Event(cls: EventClass, json: string)

  datatype Buffer = Buffer(maxTotal: nat, segmentMax: nat, queues: seq<Q.Queue>, nextSeq: nat,
                           stored: nat, total: seq<nat>, reported: seq<nat>)

  type Three = b: Buffer | |b.queues| == |b.total| == |b.reported| == 3
    witness Buffer(0, 0, [Q.EmptyQueue, Q.EmptyQueue, Q.EmptyQueue], 1, 0, [0, 0, 0], [0, 0, 0])

  function Empty(maxTotal: nat, segmentMax: nat): Three {
    Buffer(maxTotal, segmentMax, [Q.EmptyQueue, Q.EmptyQueue, Q.EmptyQueue], 1, 0, [0, 0, 0], [0, 0, 0])
  }

  function SegmentCount(b: Three): nat {
    |Q.Segs(b.queues[0])| + |Q.Segs(b.queues[1])| + |Q.Segs(b.queues[2])|
  }

  // ------------------------------------------------------------------ operations

  function AddDrops(b: Three, c: nat, n: nat): Three
    requires c < 3
  {
    b.(total := b.total[c := b.total[c] + n])
  }

  /** Drop the oldest segment of the first non-empty class from `c` on. */
  function ShedFrom(b: Three, c: nat): (r: (Three, bool))
    requires c <= 3
    ensures r.1 ==> SegmentCount(r.0) < SegmentCount(b)
    ensures !r.1 ==> r.0 == b
    decreases 3 - c
  {
    if c == 3 then (b, false)
    else match Q.DropFront(b.queues[c])
      case (q, None) => ShedFrom(b, c + 1)
      case (q, Some((dropped, freed))) =>
        (AddDrops(b.(queues := b.queues[c := q], stored := SaturatingSub(b.stored, freed)), c, dropped), true)
  }

  function ShedOne(b: Three): (r: (Three, bool))
    ensures r.1 ==> SegmentCount(r.0) < SegmentCount(b)
    ensures !r.1 ==> r.0 == b
  {
    ShedFrom(b, 0)
  }

  /** The loop of `enqueue`; false when there was nothing left to shed. */
  function ShedUntil(b: Three, len: nat): (Three, bool)
    decreases SegmentCount(b)
  {
    if b.stored + len <= b.maxTotal then (b, true)
    else
      var (b', ok) := ShedOne(b);
      if ok then ShedUntil(b', len) else (b', false)
  }

  function Enqueue(b: Three, ev: Event): Three {
    var c, line := ev.cls.ShedPriority(), FormatLine(b.nextSeq, ev.json);
    if |line| > b.maxTotal then AddDrops(b, c, 1)
    else
      var (b', ok) := ShedUntil(b, |line|);
      if !ok then AddDrops(b', c, 1)
      else b'.(queues := b'.queues[c := Q.Append(b'.queues[c], line, b.nextSeq, b.segmentMax)],
               stored := b'.stored + |line|, nextSeq := b.nextSeq + 1)
  }

  function CommitClass(b: Three, c: nat, taken: (nat, nat)): Three
    requires c < 3
  {
    if taken.0 > 0 || taken.1 > 0 then
      var (q, freed) := Q.Advance(b.queues[c], taken.0, taken.1);
      b.(queues := b.queues[c := q], stored := SaturatingSub(b.stored, freed))
    else b
  }

  function Commit(b: Three, batch: Batch): Three
    requires |batch.taken| == 3
  {
    CommitClass(CommitClass(CommitClass(b, 0, batch.taken[0]), 1, batch.taken[1]), 2, batch.taken[2])
  }

  /** `take_drop_delta`: the new buffer and the drops not reported before, per class. */
  function TakeDelta(b: Three): (Three, seq<nat>) {
    (b.(reported := b.total),
     [SaturatingSub(b.total[0], b.reported[0]), SaturatingSub(b.total[1], b.reported[1]),
      SaturatingSub(b.total[2], b.reported[2])])
  }

  // ------------------------------------------------------------------- invariant

  function StoredBytes(b: Three): nat {
    Q.Bytes(Q.Segs(b.queues[0])) + Q.Bytes(Q.Segs(b.queues[1])) + Q.Bytes(Q.Segs(b.queues[2]))
  }

  ghost predicate Wf(b: Three) {
    && (forall c | 0 <= c < 3 :: Q.Wf(b.queues[c]) && b.reported[c] <= b.total[c])
    && b.stored == StoredBytes(b)
  }

  function Pending(b: Three, c: nat): seq<string>
    requires c < 3
  {
    Q.Pending(b.queues[c])
  }

  function StreamsOf(b: Three): Streams {
    [ItemsOf(0, Pending(b, 0)), ItemsOf(1, Pending(b, 1)), ItemsOf(2, Pending(b, 2))]
  }

  /** Everything still to be delivered, in delivery order. */
  function Backlog(b: Three): seq<Item> {
    Merge(StreamsOf(b))
  }

  lemma StreamsAreClassed(b: Three)
    ensures Classed(StreamsOf(b))
  {
    ItemsHaveClass(0, Pending(b, 0), 0, 0);
    ItemsHaveClass(1, Pending(b, 1), 0, 0);
    ItemsHaveClass(2, Pending(b, 2), 0, 0);
  }

  // -------------------------------------------------------------------- shedding

  ghost predicate AllEmpty(b: Three) {
    forall c | 0 <= c < 3 :: Q.Segs(b.queues[c]) == []
  }

  /** One class replaced by a well-formed one, with the stored bytes adjusted to match. */
  lemma ReplaceQueue(b: Three, c: nat, q: Q.Queue, b': Three)
    requires Wf(b) && c < 3 && Q.Wf(q)
    requires b'.queues == b.queues[c := q]
    requires b'.stored + Q.Bytes(Q.Segs(b.queues[c])) == b.stored + Q.Bytes(Q.Segs(q))
    requires forall d | 0 <= d < 3 :: b'.reported[d] <= b'.total[d]
    ensures Wf(b')
  {
    hide Q.Bytes, Q.Segs, Q.Wf;
  }

  /** Shedding takes one whole segment, from the lowest-priority class that has any, and counts
  exactly the pending entries it loses; it fails only on an empty buffer. */
  lemma ShedOneSpec(b: Three) returns (c: nat)
    requires Wf(b)
    ensures !ShedOne(b).1 <==> AllEmpty(b)
    ensures !AllEmpty(b) ==>
      && c < 3
      && Q.Segs(b.queues[c]) != []
      && (forall d | 0 <= d < c :: Q.Segs(b.queues[d]) == [])
      && Shed(b, ShedOne(b).0, c)
    ensures Wf(ShedOne(b).0)
  {
    hide Q.Wf, Q.DropFront, Q.Bytes, Q.LinesOf, Q.Segs, Q.Pending;
    c := 0;
    Q.DropFrontRemovesOldest(b.queues[0]);
    if Q.Segs(b.queues[0]) == [] {
      c := 1;
      Q.DropFrontRemovesOldest(b.queues[1]);
      if Q.Segs(b.queues[1]) == [] {
        c := 2;
        Q.DropFrontRemovesOldest(b.queues[2]);
      }
    }
    if Q.Segs(b.queues[c]) != [] {
      ShedFromAt(b, 0, c);
      ReplaceQueue(b, c, Q.DropFront(b.queues[c]).0, ShedOne(b).0);
    } else {
      assert AllEmpty(b);
    }
  }

  lemma {:induction false} ShedFromAt(b: Three, from_: nat, c: nat)
    requires from_ <= c < 3
    requires forall d | from_ <= d < c :: Q.DropFront(b.queues[d]).1 == None
    requires Q.DropFront(b.queues[c]).1.Some?
    ensures var (q, r) := Q.DropFront(b.queues[c]);
      ShedFrom(b, from_) ==
        (AddDrops(b.(queues := b.queues[c := q], stored := SaturatingSub(b.stored, r.value.1)), c, r.value.0), true)
    decreases c - from_
  {
    hide Q.DropFront;
    if from_ < c {
      assert Q.DropFront(b.queues[from_]).1 == None;
      ShedFromAt(b, from_ + 1, c);
    }
  }

  /** b' is b without the oldest segment of class c. */
  ghost predicate Shed(b: Three, b': Three, c: nat)
    requires c < 3 && Q.Segs(b.queues[c]) != []
  {
    var lost := |Pending(b, c)| - |Pending(b', c)|;
    && lost > 0
    && Q.Segs(b'.queues[c]) == Q.Segs(b.queues[c])[1..]
    && Pending(b', c) == Pending(b, c)[lost..]
    && b'.total == b.total[c := b.total[c] + lost]
    && (forall d | 0 <= d < 3 && d != c :: b'.queues[d] == b.queues[d])
    && b'.stored <= b.stored
    && b' == b.(queues := b'.queues, total := b'.total, stored := b'.stored)
  }

  /** How far the shedding loop got: class c lost its first d[c] pending lines. */
  ghost predicate ShedBy(b: Three, b': Three, d: seq<nat>) {
    && |d| == 3
    && (forall c | 0 <= c < 3 ::
          && d[c] <= |Pending(b, c)|
          && Pending(b', c) == Pending(b, c)[d[c]..]
          && b'.total[c] == b.total[c] + d[c]
          && (d[c] == 0 ==> b'.queues[c] == b.queues[c])
          && (d[c] > 0 ==> forall low | 0 <= low < c :: Q.Segs(b'.queues[low]) == []))
    && b' == b.(queues := b'.queues, total := b'.total, stored := b'.stored)
  }

  lemma {:induction false} ShedByAdd(b: Three, b1: Three, c: nat, b2: Three, d: seq<nat>) returns (d': seq<nat>)
    requires Wf(b) && c < 3 && Q.Segs(b.queues[c]) != [] && Shed(b, b1, c)
    requires forall low | 0 <= low < c :: Q.Segs(b.queues[low]) == []
    requires ShedBy(b1, b2, d)
    requires forall low | 0 <= low < 3 :: Q.Segs(b1.queues[low]) == [] ==> d[low] == 0
    ensures ShedBy(b, b2, d')
    ensures forall low | 0 <= low < 3 && Q.Segs(b.queues[low]) == [] :: d'[low] == 0
  {
    hide Q.Wf, Q.Segs, Q.Pending, StoredBytes;
    var lost := |Pending(b, c)| - |Pending(b1, c)|;
    Shift(Pending(b, c), lost, d[c]);
    d' := d[c := d[c] + lost];
  }

  lemma KeepsLimits(b: Three, b1: Three, c: nat)
    requires c < 3 && Q.Segs(b.queues[c]) != [] && Shed(b, b1, c)
    ensures b1.maxTotal == b.maxTotal
  {
  }

  lemma ShedByKeeps(b: Three, b1: Three, d: seq<nat>)
    requires ShedBy(b, b1, d)
    ensures b1.maxTotal == b.maxTotal && b1.segmentMax == b.segmentMax && b1.nextSeq == b.nextSeq
  {
  }

  lemma NothingPending(q: Q.Queue)
    requires Q.Wf(q) && Q.Segs(q) == []
    ensures Q.Pending(q) == []
  {
  }

  lemma EmptyStoresNothing(b: Three)
    requires Wf(b) && AllEmpty(b)
    ensures b.stored == 0
  {
  }

  lemma ShedNothing(b: Three)
    ensures ShedBy(b, b, [0, 0, 0])
  {
    hide Q.Pending, Q.Segs;
    assert forall c | 0 <= c < 3 :: Pending(b, c)[0..] == Pending(b, c);
  }

  /** The shedding loop makes room for every line that fits the buffer at all: its give-up
  branch is unreachable.  It sheds nothing when there is room, and a class only once every
  lower-priority class is empty. */
  lemma {:induction false} ShedUntilSpec(b: Three, len: nat) returns (d: seq<nat>)
    requires Wf(b) && len <= b.maxTotal
    ensures var (b', ok) := ShedUntil(b, len);
      && ok && Wf(b') && b'.stored + len <= b'.maxTotal
      && ShedBy(b, b', d)
      && (b.stored + len <= b.maxTotal ==> b' == b)
    ensures forall c | 0 <= c < 3 && Q.Segs(b.queues[c]) == [] :: d[c] == 0
    decreases SegmentCount(b)
  {
    hide Q.Wf, Q.Segs, Q.Pending, StoredBytes, ShedOne, Shed;
    if b.stored + len <= b.maxTotal {
      d := [0, 0, 0];
      ShedNothing(b);
    } else {
      hide ShedBy, Pending;
      var c := ShedOneSpec(b);
      if AllEmpty(b) { EmptyStoresNothing(b); }
      var b1 := ShedOne(b).0;
      KeepsLimits(b, b1, c);
      d := ShedUntilSpec(b1, len);
      d := ShedByAdd(b, b1, c, ShedUntil(b1, len).0, d);
    }
  }

  // ------------------------------------------------------------- enqueue, commit

  /** The line an event is stored as. */
  function LineFor(b: Three, ev: Event): string {
    FormatLine(b.nextSeq, ev.json)
  }

  /** An event is refused, and counted as dropped, exactly when it is larger than the whole
  buffer; otherwise it becomes the last pending line of its class, after shedding. */
  lemma EnqueueSpec(b: Three, ev: Event) returns (d: seq<nat>)
    requires Wf(b) && IsLine(LineFor(b, ev))
    ensures var b', line, c := Enqueue(b, ev), LineFor(b, ev), ev.cls.ShedPriority();
      && Wf(b') && b'.maxTotal == b.maxTotal && b'.segmentMax == b.segmentMax && b'.reported == b.reported
      && (b.stored <= b.maxTotal || |line| <= b.maxTotal ==> b'.stored <= b'.maxTotal)
      && (|line| > b.maxTotal ==> b' == AddDrops(b, c, 1) && d == [0, 0, 0])
      && (|line| <= b.maxTotal ==> Accepted(b, b', line, c, d))
  {
    hide Q.Wf, Q.Segs, Q.Pending, Q.Append, FormatLine, IsLine, ShedUntil, ShedBy;
    var line, c := LineFor(b, ev), ev.cls.ShedPriority();
    if |line| > b.maxTotal {
      d := [0, 0, 0];
    } else {
      d := ShedUntilSpec(b, |line|);
      var b1 := ShedUntil(b, |line|).0;
      Q.AppendAddsLine(b1.queues[c], line, b.nextSeq, b.segmentMax);
      AppendedAfterShed(b, b1, ev, d);
    }
  }

  /** Class by class: d[e] lines shed from the front, and the new line last in class c. */
  ghost predicate Accepted(b: Three, b': Three, line: string, c: nat, d: seq<nat>)
    requires c < 3
  {
    && |d| == 3
    && b'.nextSeq == b.nextSeq + 1
    && (forall e | 0 <= e < 3 ::
          && d[e] <= |Pending(b, e)|
          && Pending(b', e) == Pending(b, e)[d[e]..] + (if e == c then [line] else [])
          && b'.total[e] == b.total[e] + d[e]
          && (d[e] == 0 && e != c ==> b'.queues[e] == b.queues[e])
          && (d[e] > 0 ==> forall low | 0 <= low < e :: Pending(b', low) == if low == c then [line] else []))
  }

  lemma {:induction false} AppendedAfterShed(b: Three, b1: Three, ev: Event, d: seq<nat>)
    requires Wf(b) && Wf(b1) && ShedBy(b, b1, d)
    requires |LineFor(b, ev)| <= b.maxTotal
    requires ShedUntil(b, |LineFor(b, ev)|) == (b1, true) && b1.stored + |LineFor(b, ev)| <= b1.maxTotal
    requires var c := ev.cls.ShedPriority();
      var q' := Q.Append(b1.queues[c], LineFor(b, ev), b.nextSeq, b.segmentMax);
      && Q.Wf(q')
      && Q.Pending(q') == Q.Pending(b1.queues[c]) + [LineFor(b, ev)]
      && Q.Bytes(Q.Segs(q')) == Q.Bytes(Q.Segs(b1.queues[c])) + |LineFor(b, ev)|
    ensures var b' := Enqueue(b, ev);
      && Wf(b') && b'.stored <= b'.maxTotal
      && b'.maxTotal == b.maxTotal && b'.segmentMax == b.segmentMax && b'.reported == b.reported
      && Accepted(b, b', LineFor(b, ev), ev.cls.ShedPriority(), d)
  {
    hide Q.Wf, Q.Segs, Q.Pending, Q.Append, StoredBytes, FormatLine, ShedUntil, Q.Bytes;
    var c, b' := ev.cls.ShedPriority(), Enqueue(b, ev);
    ReplaceQueue(b1, c, b'.queues[c], b');
    forall e, low | 0 <= low < e < 3 && d[e] > 0
      ensures Pending(b', low) == if low == c then [LineFor(b, ev)] else []
    {
      NothingPending(b1.queues[low]);
    }
  }

  lemma CommitClassSpec(b: Three, c: nat, k: nat)
    requires Wf(b) && c < 3 && k <= |Pending(b, c)|
    ensures var b' := CommitClass(b, c, (k, Size(Pending(b, c)[..k])));
      && Wf(b')
      && Pending(b', c) == Pending(b, c)[k..]
      && b'.stored <= b.stored
      && b' == b.(queues := b.queues[c := b'.queues[c]], stored := b'.stored)
      && (k == 0 ==> b' == b)
      && Q.FrontRemoved(b.queues[c], b'.queues[c])
  {
    hide Q.Wf, Q.Segs, Q.Pending, StoredBytes, Q.Bytes, Q.Advance, Q.LinesOf;
    var size := Size(Pending(b, c)[..k]);
    if k == 0 {
      assert Pending(b, c)[..0] == [] && Pending(b, c)[0..] == Pending(b, c);
      assert Q.Segs(b.queues[c])[0..] == Q.Segs(b.queues[c]);
    } else {
      var n := Q.AdvanceExact(b.queues[c], k);
      StoredCovers(b, c);
      ReplaceQueue(b, c, Q.Advance(b.queues[c], k, size).0, CommitClass(b, c, (k, size)));
    }
  }

  lemma StoredCovers(b: Three, c: nat)
    requires c < 3
    ensures Q.Bytes(Q.Segs(b.queues[c])) <= StoredBytes(b)
  {
    hide Q.Bytes, Q.Segs;
  }

  /** The (entries, bytes) of a prefix of every class's pending lines. */
  ghost predicate TakesPrefixes(b: Three, taken: seq<(nat, nat)>) {
    && |taken| == 3
    && (forall c | 0 <= c < 3 ::
          taken[c].0 <= |Pending(b, c)| && taken[c].1 == Size(Pending(b, c)[..taken[c].0]))
  }

  /** Committing prefixes removes exactly them, and only whole segments from disk. */
  lemma {:induction false} CommitTakenSpec(b: Three, batch: Batch)
    requires Wf(b) && TakesPrefixes(b, batch.taken)
    ensures var b' := Commit(b, batch);
      && Wf(b')
      && b'.stored <= b.stored
      && b' == b.(queues := b'.queues, stored := b'.stored)
      && (forall c | 0 <= c < 3 ::
            && Pending(b', c) == Pending(b, c)[batch.taken[c].0..]
            && (batch.taken[c].0 == 0 ==> b'.queues[c] == b.queues[c])
            && Q.FrontRemoved(b.queues[c], b'.queues[c]))
  {
    hide Q.Wf, Q.FrontRemoved, Q.Pending, StoredBytes, CommitClass, Size;
    CommitClassSpec(b, 0, batch.taken[0].0);
    var b1 := CommitClass(b, 0, batch.taken[0]);
    CommitClassSpec(b1, 1, batch.taken[1].0);
    var b2 := CommitClass(b1, 1, batch.taken[1]);
    CommitClassSpec(b2, 2, batch.taken[2].0);
  }

  /** Committing the first n events of the backlog leaves exactly the other events, in order. */
  lemma CommitSpec(b: Three, n: nat)
    requires Wf(b) && n <= |Backlog(b)|
    ensures var batch := BatchOf(Backlog(b)[..n]); var b' := Commit(b, batch);
      && TakesPrefixes(b, batch.taken)
      && Wf(b')
      && Backlog(b') == Backlog(b)[n..]
  {
    hide Wf, Q.Pending, Commit, Merge, ItemsOf, Size;
    var batch := BatchOf(Backlog(b)[..n]);
    TakenFits(b, n, 0);
    TakenFits(b, n, 1);
    TakenFits(b, n, 2);
    CommitTakenSpec(b, batch);
    assert StreamsOf(Commit(b, batch)) == After(StreamsOf(b), n);
    StreamsAreClassed(b);
    AfterIsRest(StreamsOf(b), n, 0);
  }

  /** What a batch takes from a class is a prefix of its pending lines. */
  lemma TakenFits(b: Three, n: nat, c: nat)
    requires n <= |Backlog(b)| && c < 3
    ensures var (k, bytes) := TakenOf(Backlog(b)[..n], c);
      && k <= |Pending(b, c)|
      && bytes == Size(Pending(b, c)[..k])
      && ItemsOf(c, Pending(b, c)[k..]) == After(StreamsOf(b), n)[c]
      && (k == 0 ==> bytes == 0)
  {
    hide Q.Pending, Merge, ItemsOf, After, OfClass, LineCount, ByteCount;
    StreamsAreClassed(b);
    AfterIsRest(StreamsOf(b), n, c);
    var taken := OfClass(Backlog(b)[..n], c);
    PrefixOf(taken, After(StreamsOf(b), n)[c]);
    ItemsDrop(c, Pending(b, c), |taken|);
    if |taken| == 0 { NoneTaken(taken, []); }
  }

  lemma PrefixOf(a: seq<Item>, b: seq<Item>)
    ensures (a + b)[..|a|] == a && (a + b)[|a|..] == b
  {
  }
}
