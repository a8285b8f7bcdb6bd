/** What the agent loses when a batch is committed after its class was shed, at two small
configurations.  The same five steps are taken in both: two events arrive, they are read, a
third arrives during the POST and sheds what was read, and the server accepts. */
module CommitLoss {
  import opened Basics
  import opened Lines
  import opened LineFormat
  import opened Replay
  import opened Delivery
  import opened AgentRun
  import B = BufferModel
  import Q = SegmentQueue

  const EVENT := B.Event(B.NetworkActivity, "{}")

  /** Two lines fill the buffer. */
  const LINE_BYTES := 24
  const TOTAL := 48

  function Line(n: nat): string {
    FormatLine(n, "{}")
  }

  function LosingSteps(): seq<Step> {
    [Arrive(EVENT), Arrive(EVENT), Read, Arrive(EVENT), Answer(Status(200, false))]
  }

  lemma LineFacts(n: nat)
    requires n <= 9
    ensures |Line(n)| == LINE_BYTES && IsLine(Line(n)) && Complete(Line(n)) == [Line(n)] && Torn(Line(n)) == []
    ensures ParseLine(Line(n)) == Some(Record(n, "{}"))
  {
    ParseInvertsFormat(n, "{}");
    hide FormatLine, ParseLine, Complete, Torn;
    OneLine(Line(n));
    assert |Line(n)| == LINE_BYTES by { FormatLength(n); }
  }

  lemma FormatLength(n: nat)
    ensures |FormatLine(n, "{}")| == LINE_BYTES
  {
  }

  lemma OneMore(a: State, steps: seq<Step>, n: nat)
    requires n < |steps|
    ensures Run(a, steps[..n + 1]) == Next(Run(a, steps[..n]), steps[n])
  {
    assert steps[..n + 1][..n] == steps[..n];
  }

  // ---- every event in a segment of its own

  function Own(n: nat): Q.Segment {
    Q.Segment(SegmentName(n), Line(n), LINE_BYTES, 1)
  }

  function Rows(segs: seq<Q.Segment>, next: nat, stored: nat, dropped: nat): B.Three {
    B.Buffer(TOTAL, 1, [Q.Queue(segs, None, 0, 0), Q.EmptyQueue, Q.EmptyQueue], next, stored,
             [dropped, 0, 0], [0, 0, 0])
  }

  lemma AppendOwn(segs: seq<Q.Segment>, next: nat)
    requires next <= 9
    ensures Q.Append(Q.Queue(segs, None, 0, 0), Line(next), next, 1) == Q.Queue(segs + [Own(next)], None, 0, 0)
  {
    LineFacts(next);
    hide Line, SegmentName;
    assert "" + Line(next) == Line(next);
  }

  lemma OwnFits(segs: seq<Q.Segment>, next: nat, stored: nat, dropped: nat)
    requires next <= 9 && stored + LINE_BYTES <= TOTAL
    ensures var b := Rows(segs, next, stored, dropped);
      && B.Enqueue(b, EVENT) == Rows(segs + [Own(next)], next + 1, stored + LINE_BYTES, dropped)
      && AfterShed(b, EVENT) == b && |B.LineFor(b, EVENT)| <= TOTAL
  {
    var b := Rows(segs, next, stored, dropped);
    LineFacts(next);
    AppendOwn(segs, next);
    hide Q.Append, IsLine, Complete, Torn, ParseLine, SegmentName;
    assert B.LineFor(b, EVENT) == Line(next);
    assert B.ShedUntil(b, LINE_BYTES) == (b, true);
    assert b.queues[0 := Q.Queue(segs + [Own(next)], None, 0, 0)] == Rows(segs + [Own(next)], next + 1, 0, 0).queues;
  }

  /** With the buffer full, the oldest event makes room. */
  lemma OwnSheds(segs: seq<Q.Segment>, next: nat, dropped: nat)
    requires next <= 9 && segs != [] && segs[0].entries == 1 && segs[0].bytes == LINE_BYTES
    ensures var b, shed := Rows(segs, next, TOTAL, dropped), Rows(segs[1..], next, LINE_BYTES, dropped + 1);
      && B.Enqueue(b, EVENT) == Rows(segs[1..] + [Own(next)], next + 1, TOTAL, dropped + 1)
      && AfterShed(b, EVENT) == shed && |B.LineFor(b, EVENT)| <= TOTAL
  {
    var b, shed := Rows(segs, next, TOTAL, dropped), Rows(segs[1..], next, LINE_BYTES, dropped + 1);
    LineFacts(next);
    OwnFits(segs[1..], next, LINE_BYTES, dropped + 1);
    hide Q.Append, IsLine, Complete, Torn, ParseLine, SegmentName;
    assert b.queues[0 := Q.Queue(segs[1..], None, 0, 0)] == shed.queues && b.total[0 := dropped + 1] == shed.total;
    assert B.ShedOne(b) == (shed, true);
    assert B.LineFor(b, EVENT) == B.LineFor(shed, EVENT) == Line(next);
    assert B.ShedUntil(b, LINE_BYTES) == B.ShedUntil(shed, LINE_BYTES) == (shed, true);
  }

  // ---- reading

  lemma {:induction false} MergeOne(xs: seq<Item>)
    ensures Merge([xs, [], []]) == xs
  {
    var hs: Streams := [xs, [], []];
    if xs == [] {
      assert Pick(hs, 3).None?;
    } else {
      assert Pick(hs, 1) == Some(0);
      assert Pick(hs, 2) == Some(0);
      assert Pick(hs, 3) == Some(0);
      MergeOne(xs[1..]);
      assert Pop(hs, 0) == [xs[1..], [], []];
    }
  }

  function ItemFor(n: nat): Item {
    Item(0, Record(n, "{}"), 1, LINE_BYTES)
  }

  lemma ItemsTwo(m: nat, n: nat)
    requires m <= 9 && n <= 9
    ensures ItemsOf(0, [Line(m), Line(n)]) == [ItemFor(m), ItemFor(n)]
  {
    LineFacts(m);
    LineFacts(n);
    hide Line, ParseLine, Complete, Torn, IsLine;
    var ls := [Line(m), Line(n)];
    assert ls[1..] == [Line(n)] && ls[1..][1..] == [];
    assert ItemsFrom(0, ls[1..], 0, 0) == [ItemFor(n)] + ItemsFrom(0, [], 0, 0);
  }

  /** The two waiting events make up the backlog. */
  lemma BacklogTwo(b: B.Three, m: nat, n: nat)
    requires m <= 9 && n <= 9
    requires B.Pending(b, 0) == [Line(m), Line(n)] && B.Pending(b, 1) == [] && B.Pending(b, 2) == []
    ensures B.Backlog(b) == [ItemFor(m), ItemFor(n)]
  {
    hide B.Pending, Line;
    ItemsTwo(m, n);
    MergeOne([ItemFor(m), ItemFor(n)]);
    assert B.StreamsOf(b) == [[ItemFor(m), ItemFor(n)], [], []];
  }

  lemma OfOne(n: nat, c: nat)
    ensures OfClass([ItemFor(n)], c) == if c == 0 then [ItemFor(n)] else []
    ensures LineCount([ItemFor(n)]) == 1 && ByteCount([ItemFor(n)]) == LINE_BYTES && Cost([ItemFor(n)]) == 3
  {
    assert [ItemFor(n)][1..] == [];
  }

  lemma OfTwo(m: nat, n: nat, c: nat)
    ensures var items := [ItemFor(m), ItemFor(n)];
      && OfClass(items, c) == (if c == 0 then items else [])
      && LineCount(items) == 2 && ByteCount(items) == 2 * LINE_BYTES && Cost(items) == 6
  {
    OfOne(n, c);
    assert [ItemFor(m), ItemFor(n)][1..] == [ItemFor(n)];
    assert [ItemFor(m)] + [ItemFor(n)] == [ItemFor(m), ItemFor(n)];
  }

  /** What is taken when the first k of two events are read. */
  lemma TakenOfTwo(m: nat, n: nat, k: nat)
    requires k == 1 || k == 2
    ensures BatchOf([ItemFor(m), ItemFor(n)][..k]).taken == [(k, k * LINE_BYTES), (0, 0), (0, 0)]
  {
    var items := [ItemFor(m), ItemFor(n)][..k];
    assert items == if k == 1 then [ItemFor(m)] else [ItemFor(m), ItemFor(n)];
    OfOne(m, 0);
    OfOne(m, 1);
    OfOne(m, 2);
    OfTwo(m, n, 0);
    OfTwo(m, n, 1);
    OfTwo(m, n, 2);
    hide OfClass, LineCount, ByteCount;
    NoCounts();
  }

  lemma NoCounts()
    ensures LineCount([]) == 0 && ByteCount([]) == 0
  {
  }

  /** How many of the two events are read: one under a cap of one, both under a cap of two. */
  lemma LongestOfTwo(m: nat, n: nat, cap: nat, maxBytes: nat)
    requires cap == 1 || (cap == 2 && maxBytes >= 6)
    ensures Longest([ItemFor(m), ItemFor(n)], 0, cap, maxBytes) == cap
  {
    var items := [ItemFor(m), ItemFor(n)];
    OfTwo(m, n, 0);
    hide Cost;
    assert items[..2] == items;
    assert Longest(items, cap, cap, maxBytes) == cap;
    assert Longest(items, 1, cap, maxBytes) == cap;
  }

  // ---- the steps

  const MAX_BYTES := ByteCap(MAX_BATCH_BYTES)

  /** Where the agent stands, as far as the first class goes. */
  ghost predicate Stands(a: State, b: B.Three, cap: nat, stored: seq<string>, left: seq<(string, Fate)>) {
    && a.buf == b && a.cap == cap && a.maxBytes == MAX_BYTES && !a.stopped
    && a.log[0] == ClassLog(stored, left, 0, 0)
  }

  lemma Arrives(a: State, b: B.Three, cap: nat, stored: seq<string>, left: seq<(string, Fate)>, k: nat, shed: B.Three)
    requires Stands(a, b, cap, stored, left) && |B.LineFor(b, EVENT)| <= b.maxTotal
    requires AfterShed(b, EVENT) == shed && k <= |B.Pending(b, 0)| && B.Pending(shed, 0) == B.Pending(b, 0)[k..]
    ensures var a' := Next(a, Arrive(EVENT));
      && Stands(a', B.Enqueue(b, EVENT), cap, stored + [B.LineFor(b, EVENT)],
                left + Tagged(B.Pending(b, 0)[..k], WasShed))
      && (a'.flight.Some? <==> a.flight.Some?)
      && (a.flight.Some? ==>
            a'.flight.value.batch == a.flight.value.batch && a'.flight.value.lines == a.flight.value.lines)
  {
    hide B.LineFor, B.Enqueue, AfterShed, B.Pending, Tagged;
  }

  lemma Reads(a: State, b: B.Three, k: nat, stored: seq<string>, left: seq<(string, Fate)>, m: nat, n: nat)
    requires Stands(a, b, k, stored, left) && a.flight.None? && (k == 1 || k == 2) && m <= 9 && n <= 9
    requires B.Pending(b, 0) == [Line(m), Line(n)] && B.Pending(b, 1) == [] && B.Pending(b, 2) == []
    ensures var a' := Next(a, Read);
      && Stands(a', b, k, stored, left) && a'.flight.Some?
      && a'.flight.value.batch.taken == [(k, k * LINE_BYTES), (0, 0), (0, 0)]
      && a'.flight.value.lines[0] == [Line(m), Line(n)][..k]
  {
    BacklogTwo(b, m, n);
    LongestOfTwo(m, n, k, MAX_BYTES);
    TakenOfTwo(m, n, k);
    hide B.Backlog, B.Pending, Longest, BatchOf, Line;
  }

  lemma Commits(a: State, b: B.Three, cap: nat, stored: seq<string>, left: seq<(string, Fate)>)
    requires Stands(a, b, cap, stored, left) && a.flight.Some?
    ensures Stands(Next(a, Answer(Status(200, false))), B.Commit(b, a.flight.value.batch), cap, stored,
                   left + Tagged(a.flight.value.lines[0], WasDelivered))
  {
    hide B.Commit, Tagged;
  }

  lemma OwnPending(segs: seq<Q.Segment>, next: nat, stored: nat, dropped: nat)
    ensures B.Pending(Rows(segs, next, stored, dropped), 0) == Q.LinesOf(segs)
    ensures B.Pending(Rows(segs, next, stored, dropped), 1) == []
    ensures B.Pending(Rows(segs, next, stored, dropped), 2) == []
  {
    assert Q.LinesOf(segs)[0..] == Q.LinesOf(segs);
    assert segs + [] == segs;
  }

  lemma OwnLines(m: nat, n: nat)
    requires m <= 9 && n <= 9
    ensures Q.LinesOf([Own(n)]) == [Line(n)] && Q.LinesOf([Own(m), Own(n)]) == [Line(m), Line(n)]
    ensures [Own(m), Own(n)][1..] == [Own(n)] && [Line(m), Line(n)][1..] == [Line(n)]
    ensures [] + [Own(m)] == [Own(m)] && [Own(m)] + [Own(n)] == [Own(m), Own(n)]
  {
    LineFacts(m);
    LineFacts(n);
    hide Line, Complete, Torn, SegmentName;
    assert [Own(m), Own(n)][1..] == [Own(n)] && [Own(n)][1..] == [];
    assert Q.LinesOf([Own(n)]) == [Line(n)] + Q.LinesOf([]);
    assert [Line(m)] + [Line(n)] == [Line(m), Line(n)];
  }

  lemma OwnCommits(m: nat, n: nat, next: nat, dropped: nat, batch: Batch)
    requires batch.taken == [(1, LINE_BYTES), (0, 0), (0, 0)]
    ensures B.Commit(Rows([Own(m), Own(n)], next, TOTAL, dropped), batch) == Rows([Own(n)], next, LINE_BYTES, dropped)
  {
    hide Line, SegmentName;
    var q := Q.Queue([Own(m), Own(n)], None, 0, 0);
    assert [Own(m), Own(n)][1..] == [Own(n)];
    var q1, q2 := Q.Queue([Own(m), Own(n)], None, 1, LINE_BYTES), Q.Queue([Own(n)], None, 0, 0);
    assert Q.Consume(q1, Own(m)) == q2;
    assert Q.Reclaim(q2) == (q2, 0);
    assert Q.Reclaim(q1) == (q2, LINE_BYTES);
    assert Q.Advance(q, 1, LINE_BYTES) == (q2, LINE_BYTES);
    var b, b' := Rows([Own(m), Own(n)], next, TOTAL, dropped), Rows([Own(n)], next, LINE_BYTES, dropped);
    assert b.queues[0 := Q.Queue([Own(n)], None, 0, 0)] == b'.queues;
    hide Q.Advance;
    assert B.CommitClass(b, 0, batch.taken[0]) == b';
  }

  lemma StartStands(segmentMax: nat, k: nat)
    requires k == 1 || k == 2
    ensures var a := Start(B.Empty(TOTAL, segmentMax), k, MAX_BATCH_BYTES);
      Stands(a, B.Empty(TOTAL, segmentMax), k, [], []) && a.flight.None?
  {
    assert Q.LinesOf([]) == [];
  }

  /** Each of the five steps is one the agent can take where it is taken. */
  ghost predicate Feasible(a: State) {
    forall i | 0 <= i < 5 :: Possible(Run(a, LosingSteps()[..i]), LosingSteps()[i])
  }

  lemma LosingStepsAre()
    ensures var s := LosingSteps();
      && |s| == 5 && s[0] == s[1] == s[3] == Arrive(EVENT) && s[2] == Read && s[4] == Answer(Status(200, false))
  {
  }

  lemma ArrivalPossible(a: State)
    requires a.buf.nextSeq <= 9
    ensures Possible(a, Arrive(EVENT))
  {
  }

  lemma FeasibleIf(a: State)
    requires a.buf.nextSeq <= 9 && |LosingSteps()| == 5
    requires Run(a, LosingSteps()[..1]).buf.nextSeq <= 9 && Run(a, LosingSteps()[..3]).buf.nextSeq <= 9
    ensures Feasible(a)
  {
    var s := LosingSteps();
    LosingStepsAre();
    hide LosingSteps, Run;
    NoSteps(a, s[..0]);
    ArrivalPossible(a);
    ArrivalPossible(Run(a, s[..1]));
    ArrivalPossible(Run(a, s[..3]));
  }

  lemma FiveSteps(a: State)
    ensures var s := LosingSteps();
      && Run(a, s[..1]) == Next(a, Arrive(EVENT))
      && Run(a, s[..2]) == Next(Run(a, s[..1]), Arrive(EVENT))
      && Run(a, s[..3]) == Next(Run(a, s[..2]), Read)
      && Run(a, s[..4]) == Next(Run(a, s[..3]), Arrive(EVENT))
      && Run(a, s) == Next(Run(a, s[..4]), Answer(Status(200, false)))
  {
    hide Next, Run;
    var s := LosingSteps();
    OneMore(a, s, 0);
    OneMore(a, s, 1);
    OneMore(a, s, 2);
    OneMore(a, s, 3);
    OneMore(a, s, 4);
    assert s[..5] == s;
    NoSteps(a, s[..0]);
  }

  lemma NoSteps(a: State, none: seq<Step>)
    requires none == []
    ensures Run(a, none) == a
  {
  }

  lemma TaggedOne(l: string, fate: Fate)
    ensures Tagged([l], fate) == [(l, fate)] && Tagged([], fate) == []
  {
  }

  lemma OwnArrives(a: State, segs: seq<Q.Segment>, next: nat, stored: nat, lines: seq<string>)
    requires next <= 9 && stored + LINE_BYTES <= TOTAL && Stands(a, Rows(segs, next, stored, 0), 1, lines, [])
    ensures var a' := Next(a, Arrive(EVENT));
      && Stands(a', Rows(segs + [Own(next)], next + 1, stored + LINE_BYTES, 0), 1, lines + [Line(next)], [])
      && (a'.flight.Some? <==> a.flight.Some?)
  {
    var b := Rows(segs, next, stored, 0);
    OwnFits(segs, next, stored, 0);
    assert B.Pending(b, 0)[..0] == [] && B.Pending(b, 0)[0..] == B.Pending(b, 0);
    hide Rows, Next, B.Enqueue, AfterShed, B.Pending;
    assert B.LineFor(b, EVENT) == Line(next) by { NextOf(segs, next, stored); }
    Arrives(a, b, 1, lines, [], 0, b);
    assert [] + Tagged([], WasShed) == [];
  }

  lemma NextOf(segs: seq<Q.Segment>, next: nat, stored: nat)
    ensures B.LineFor(Rows(segs, next, stored, 0), EVENT) == Line(next)
  {
  }

  // The five steps with every event in a segment of its own.

  function Owns(m: nat, n: nat): seq<Q.Segment> {
    [Own(m), Own(n)]
  }

  function FirstTwo(): seq<string> {
    [Line(1), Line(2)]
  }

  function AllThree(): seq<string> {
    [Line(1), Line(2), Line(3)]
  }

  lemma TwoArrived(a0: State, a1: State, a2: State)
    requires Stands(a0, Rows([], 1, 0, 0), 1, [], []) && a0.flight.None?
    requires a1 == Next(a0, Arrive(EVENT)) && a2 == Next(a1, Arrive(EVENT))
    ensures Stands(a2, Rows(Owns(1, 2), 3, TOTAL, 0), 1, FirstTwo(), []) && a2.flight.None?
    ensures a1.buf.nextSeq == 2
  {
    hide Next, Own, Line;
    assert [] + [Own(1)] == [Own(1)] && [Own(1)] + [Own(2)] == Owns(1, 2);
    assert [] + [Line(1)] == [Line(1)] && [Line(1)] + [Line(2)] == FirstTwo();
    hide Owns, FirstTwo;
    OwnArrives(a0, [], 1, 0, []);
    hide Stands, Rows;
    OwnArrives(a1, [Own(1)], 2, LINE_BYTES, [Line(1)]);
  }

  lemma OneRead(a2: State)
    requires Stands(a2, Rows(Owns(1, 2), 3, TOTAL, 0), 1, FirstTwo(), []) && a2.flight.None?
    ensures var a3 := Next(a2, Read);
      && Stands(a3, Rows(Owns(1, 2), 3, TOTAL, 0), 1, FirstTwo(), []) && a3.flight.Some?
      && a3.flight.value.batch.taken == [(1, LINE_BYTES), (0, 0), (0, 0)]
      && a3.flight.value.lines[0] == [Line(1)]
    ensures Next(a2, Read).buf.nextSeq == 3
  {
    OwnLines(1, 2);
    OwnPending(Owns(1, 2), 3, TOTAL, 0);
    assert FirstTwo()[..1] == [Line(1)];
    hide Next, Own, Line, B.Pending;
    Reads(a2, Rows(Owns(1, 2), 3, TOTAL, 0), 1, FirstTwo(), [], 1, 2);
  }

  lemma SecondRows()
    ensures Q.LinesOf(Owns(1, 2)) == FirstTwo() && Q.LinesOf([Own(2)]) == FirstTwo()[1..]
    ensures Owns(1, 2) != [] && Owns(1, 2)[0].entries == 1 && Owns(1, 2)[0].bytes == LINE_BYTES
    ensures Owns(1, 2)[1..] == [Own(2)] && Owns(1, 2)[1..] + [Own(3)] == Owns(2, 3)
  {
    hide Line, Q.LinesOf, SegmentName;
    OwnLines(1, 2);
  }

  lemma ThirdSheds()
    ensures var b, shed := Rows(Owns(1, 2), 3, TOTAL, 0), Rows([Own(2)], 3, LINE_BYTES, 1);
      && B.Enqueue(b, EVENT) == Rows(Owns(2, 3), 4, TOTAL, 1)
      && AfterShed(b, EVENT) == shed && B.LineFor(b, EVENT) == Line(3) && |Line(3)| <= TOTAL
      && B.Pending(b, 0) == FirstTwo() && B.Pending(shed, 0) == FirstTwo()[1..]
  {
    hide Owns, Own, Rows, Line, Q.LinesOf, B.Enqueue, AfterShed, B.LineFor, B.Pending, FirstTwo;
    SecondRows();
    OwnPending(Owns(1, 2), 3, TOTAL, 0);
    OwnPending([Own(2)], 3, LINE_BYTES, 1);
    NextLine(Owns(1, 2), 3);
    OwnSheds(Owns(1, 2), 3, 0);
  }

  lemma OneShed(a3: State)
    requires Stands(a3, Rows(Owns(1, 2), 3, TOTAL, 0), 1, FirstTwo(), []) && a3.flight.Some?
    ensures var a4 := Next(a3, Arrive(EVENT));
      && Stands(a4, Rows(Owns(2, 3), 4, TOTAL, 1), 1, AllThree(), Tagged([Line(1)], WasShed))
      && a4.flight.Some? && a4.flight.value.batch == a3.flight.value.batch
      && a4.flight.value.lines == a3.flight.value.lines
  {
    var b, shed := Rows(Owns(1, 2), 3, TOTAL, 0), Rows([Own(2)], 3, LINE_BYTES, 1);
    assert FirstTwo() + [Line(3)] == AllThree() && |FirstTwo()| == 2 && b.maxTotal == TOTAL;
    assert FirstTwo()[..1] == [Line(1)] && [] + Tagged([Line(1)], WasShed) == Tagged([Line(1)], WasShed);
    hide Next, Rows, Own, Line, Stands, B.Pending, B.Enqueue, AfterShed, B.LineFor, Tagged, Owns, AllThree, FirstTwo;
    ThirdSheds();
    Arrives(a3, b, 1, FirstTwo(), [], 1, shed);
  }

  lemma OneCommitted(a4: State)
    requires Stands(a4, Rows(Owns(2, 3), 4, TOTAL, 1), 1, AllThree(), Tagged([Line(1)], WasShed))
    requires a4.flight.Some? && a4.flight.value.batch.taken == [(1, LINE_BYTES), (0, 0), (0, 0)]
    requires a4.flight.value.lines[0] == [Line(1)]
    ensures Stands(Next(a4, Answer(Status(200, false))), Rows([Own(3)], 4, LINE_BYTES, 1), 1, AllThree(),
                   Tagged([Line(1)], WasShed) + Tagged([Line(1)], WasDelivered))
  {
    hide Next, Rows, Own, Line, Stands, Tagged, B.Commit, AllThree;
    OwnCommits(2, 3, 4, 1, a4.flight.value.batch);
    Commits(a4, Rows(Owns(2, 3), 4, TOTAL, 1), 1, AllThree(), Tagged([Line(1)], WasShed));
  }

  lemma NextLine(segs: seq<Q.Segment>, next: nat)
    ensures B.LineFor(Rows(segs, next, TOTAL, 0), EVENT) == Line(next)
  {
  }

  lemma {:induction false} OwnRun(a0: State)
    requires Stands(a0, Rows([], 1, 0, 0), 1, [], []) && a0.flight.None? && a0.buf.nextSeq == 1
    ensures Stands(Run(a0, LosingSteps()), Rows([Own(3)], 4, LINE_BYTES, 1), 1, AllThree(),
                   Tagged([Line(1)], WasShed) + Tagged([Line(1)], WasDelivered))
    ensures Feasible(a0)
  {
    FiveSteps(a0);
    assert |LosingSteps()| == 5;
    hide Run, Next, Feasible, LosingSteps, Rows, Own, Line, Stands, Tagged, AllThree, FirstTwo, Owns;
    var s := LosingSteps();
    var a1, a2, a3, a4 := Run(a0, s[..1]), Run(a0, s[..2]), Run(a0, s[..3]), Run(a0, s[..4]);
    TwoArrived(a0, a1, a2);
    OneRead(a2);
    OneShed(a3);
    OneCommitted(a4);
    FeasibleIf(a0);
  }

  /** The second event is lost: it was stored, and it is neither pending nor among those that left.
  The first left twice, counted as dropped and as delivered, so the totals still agree. */
  lemma {:induction false} LosesAnEvent()
    ensures var a := Run(Start(B.Empty(TOTAL, 1), 1, MAX_BATCH_BYTES), LosingSteps());
      && a.log[0].stored == [Line(1), Line(2), Line(3)]
      && a.log[0].left == [(Line(1), WasShed), (Line(1), WasDelivered)]
      && B.Pending(a.buf, 0) == [Line(3)]
    ensures Feasible(Start(B.Empty(TOTAL, 1), 1, MAX_BATCH_BYTES))
  {
    var a0 := Start(B.Empty(TOTAL, 1), 1, MAX_BATCH_BYTES);
    assert a0.buf.nextSeq == 1;
    StartStands(1, 1);
    assert B.Empty(TOTAL, 1) == Rows([], 1, 0, 0);
    hide Run, Start, Feasible, LosingSteps, Rows, B.Pending, Own, Line;
    OwnRun(a0);
    OwnLines(2, 3);
    OwnPending([Own(3)], 4, LINE_BYTES, 1);
    TaggedOne(Line(1), WasShed);
    TaggedOne(Line(1), WasDelivered);
  }

  // ---- both events in one segment

  const SEGMENT_MAX := 100

  function Held(active: Option<Q.Segment>, entries: nat, bytes: nat, next: nat, stored: nat, dropped: nat): B.Three {
    B.Buffer(TOTAL, SEGMENT_MAX, [Q.Queue([], active, entries, bytes), Q.EmptyQueue, Q.EmptyQueue], next, stored,
             [dropped, 0, 0], [0, 0, 0])
  }

  function Shared(): Q.Segment {
    Q.Segment(SegmentName(1), Line(1) + Line(2), TOTAL, 2)
  }

  lemma HeldLine(active: Option<Q.Segment>, next: nat, stored: nat, dropped: nat)
    ensures B.LineFor(Held(active, 0, 0, next, stored, dropped), EVENT) == Line(next)
  {
  }

  /** An event is appended to the active segment while there is room. */
  lemma HeldFits(active: Option<Q.Segment>, next: nat, stored: nat, dropped: nat)
    requires next <= 9 && stored + LINE_BYTES <= TOTAL && (active.Some? ==> active.value.bytes == stored)
    ensures var b := Held(active, 0, 0, next, stored, dropped);
      var seg := if active.Some? then active.value else Q.Segment(SegmentName(next), "", 0, 0);
      var grown := Q.Segment(seg.name, seg.file + Line(next), seg.bytes + LINE_BYTES, seg.entries + 1);
      && B.Enqueue(b, EVENT) == Held(Some(grown), 0, 0, next + 1, stored + LINE_BYTES, dropped)
      && AfterShed(b, EVENT) == b
  {
    var b := Held(active, 0, 0, next, stored, dropped);
    LineFacts(next);
    hide Line, Complete, Torn, ParseLine, SegmentName, IsLine;
    assert B.LineFor(b, EVENT) == Line(next) by { HeldLine(active, next, stored, dropped); }
    assert B.ShedUntil(b, LINE_BYTES) == (b, true);
    var q' := Q.Append(b.queues[0], Line(next), next, SEGMENT_MAX);
    assert b.queues[0 := q'] == [q', Q.EmptyQueue, Q.EmptyQueue];
  }

  lemma EmptyPlus(l: string)
    ensures "" + l == l
  {
  }

  lemma SharedDropped()
    ensures Q.DropFront(Q.Queue([], Some(Shared()), 0, 0)) == (Q.Queue([], None, 0, 0), Some((2, TOTAL)))
  {
    hide Line, SegmentName;
    assert ([] + [Shared()])[1..] == [];
  }

  lemma SharedShed()
    ensures B.ShedOne(Held(Some(Shared()), 0, 0, 3, TOTAL, 0)) == (Held(None, 0, 0, 3, 0, 2), true)
  {
    hide Shared, Q.DropFront;
    SharedDropped();
    var b, shed := Held(Some(Shared()), 0, 0, 3, TOTAL, 0), Held(None, 0, 0, 3, 0, 2);
    assert b.queues[0 := Q.Queue([], None, 0, 0)] == shed.queues && b.total[0 := 2] == shed.total;
  }

  lemma RoomMade(b: B.Three, shed: B.Three)
    requires b.stored + LINE_BYTES > b.maxTotal && B.ShedOne(b) == (shed, true)
    requires shed.stored + LINE_BYTES <= shed.maxTotal
    ensures B.ShedUntil(b, LINE_BYTES) == B.ShedUntil(shed, LINE_BYTES) == (shed, true)
  {
    hide B.ShedOne;
  }

  /** An event that needs room is stored as if the room had been there. */
  lemma StoredAfterShed(b: B.Three, shed: B.Three)
    requires B.ShedUntil(b, LINE_BYTES) == B.ShedUntil(shed, LINE_BYTES) == (shed, true)
    requires B.LineFor(b, EVENT) == B.LineFor(shed, EVENT) && |B.LineFor(b, EVENT)| == LINE_BYTES
    requires LINE_BYTES <= b.maxTotal == shed.maxTotal && b.nextSeq == shed.nextSeq && b.segmentMax == shed.segmentMax
    ensures B.Enqueue(b, EVENT) == B.Enqueue(shed, EVENT) && AfterShed(b, EVENT) == shed
  {
    hide FormatLine, Q.Append, B.ShedUntil;
  }

  /** The third event does not fit: the segment with both others is shed. */
  lemma HeldSheds()
    ensures var b, shed := Held(Some(Shared()), 0, 0, 3, TOTAL, 0), Held(None, 0, 0, 3, 0, 2);
      && B.Enqueue(b, EVENT) == Held(Some(Own(3)), 0, 0, 4, LINE_BYTES, 2)
      && AfterShed(b, EVENT) == shed
  {
    var b, shed := Held(Some(Shared()), 0, 0, 3, TOTAL, 0), Held(None, 0, 0, 3, 0, 2);
    assert |Line(3)| == LINE_BYTES by { LineFacts(3); }
    hide Line, SegmentName, B.Enqueue, B.LineFor, B.ShedOne, B.ShedUntil, Shared, AfterShed;
    HeldFits(None, 3, 0, 2);
    EmptyPlus(Line(3));
    HeldLine(Some(Shared()), 3, TOTAL, 0);
    HeldLine(None, 3, 0, 2);
    SharedShed();
    RoomMade(b, shed);
    StoredAfterShed(b, shed);
  }

  /** Two entries are consumed of a queue that holds one, and the surplus stays on the books. */
  lemma HeldCommits(batch: Batch)
    requires batch.taken == [(2, 2 * LINE_BYTES), (0, 0), (0, 0)]
    ensures B.Commit(Held(Some(Own(3)), 0, 0, 4, LINE_BYTES, 2), batch) == Held(None, 1, LINE_BYTES, 4, 0, 2)
  {
    hide Line, SegmentName;
    var b, b' := Held(Some(Own(3)), 0, 0, 4, LINE_BYTES, 2), Held(None, 1, LINE_BYTES, 4, 0, 2);
    var q, q' := b.queues[0], b'.queues[0];
    assert Q.Advance(q, 2, 2 * LINE_BYTES) == (q', LINE_BYTES);
    assert b.queues[0 := q'] == b'.queues;
    hide Q.Advance;
    assert B.CommitClass(b, 0, batch.taken[0]) == b';
  }

  lemma TwoComplete(a: string, b: string)
    requires IsLine(a) && IsLine(b)
    ensures Complete(a + b) == [a, b]
  {
    hide Complete, Torn, IsLine;
    OneLine(a);
    OneLine(b);
    CompleteAppend(a, b);
  }

  lemma SharedLines()
    ensures Complete(Shared().file) == FirstTwo() && Q.LinesOf([Shared()]) == FirstTwo()
  {
    hide Complete, Torn, Line, ParseLine, IsLine, SegmentName, Q.LinesOf;
    LineFacts(1);
    LineFacts(2);
    TwoComplete(Line(1), Line(2));
    Q.LinesOfOne(Shared());
  }

  lemma HeldPending(next: nat, stored: nat, dropped: nat)
    ensures B.Pending(Held(Some(Shared()), 0, 0, next, stored, dropped), 0) == FirstTwo()
  {
    SharedLines();
    hide Shared, FirstTwo;
    assert [] + [Shared()] == [Shared()] && FirstTwo()[0..] == FirstTwo();
  }

  lemma NonePending(entries: nat, bytes: nat, next: nat, stored: nat, dropped: nat)
    ensures B.Pending(Held(None, entries, bytes, next, stored, dropped), 0) == []
  {
  }

  lemma HeldOthers(active: Option<Q.Segment>, next: nat, stored: nat, dropped: nat)
    ensures var b := Held(active, 0, 0, next, stored, dropped); B.Pending(b, 1) == [] && B.Pending(b, 2) == []
  {
  }

  lemma FirstHeld()
    ensures B.Enqueue(Held(None, 0, 0, 1, 0, 0), EVENT) == Held(Some(Own(1)), 0, 0, 2, LINE_BYTES, 0)
  {
    hide Line, B.Enqueue, AfterShed, SegmentName;
    HeldFits(None, 1, 0, 0);
    EmptyPlus(Line(1));
  }

  lemma SecondHeld()
    ensures B.Enqueue(Held(Some(Own(1)), 0, 0, 2, LINE_BYTES, 0), EVENT) == Held(Some(Shared()), 0, 0, 3, TOTAL, 0)
  {
    hide Line, B.Enqueue, AfterShed, SegmentName;
    HeldFits(Some(Own(1)), 2, LINE_BYTES, 0);
  }

  lemma BothArrived(a0: State, a1: State, a2: State)
    requires Stands(a0, Held(None, 0, 0, 1, 0, 0), 2, [], []) && a0.flight.None?
    requires a1 == Next(a0, Arrive(EVENT)) && a2 == Next(a1, Arrive(EVENT))
    ensures Stands(a2, Held(Some(Shared()), 0, 0, 3, TOTAL, 0), 2, FirstTwo(), []) && a2.flight.None?
    ensures a1.buf.nextSeq == 2
  {
    assert [] + [Line(1)] == [Line(1)] && [Line(1)] + [Line(2)] == FirstTwo();
    assert Own(1).bytes == LINE_BYTES;
    hide Next, B.Enqueue, FirstTwo, Shared, Own, Line;
    FirstHeld();
    SecondHeld();
    HeldArrives(a0, None, 1, 0, []);
    hide Stands, Held;
    HeldArrives(a1, Some(Own(1)), 2, LINE_BYTES, [Line(1)]);
  }

  lemma HeldArrives(a: State, active: Option<Q.Segment>, next: nat, stored: nat, lines: seq<string>)
    requires next <= 9 && stored + LINE_BYTES <= TOTAL && (active.Some? ==> active.value.bytes == stored)
    requires Stands(a, Held(active, 0, 0, next, stored, 0), 2, lines, [])
    ensures var a' := Next(a, Arrive(EVENT));
      && Stands(a', B.Enqueue(Held(active, 0, 0, next, stored, 0), EVENT), 2, lines + [Line(next)], [])
      && (a'.flight.Some? <==> a.flight.Some?)
  {
    var b := Held(active, 0, 0, next, stored, 0);
    HeldFits(active, next, stored, 0);
    HeldLine(active, next, stored, 0);
    assert |Line(next)| <= b.maxTotal by { LineFacts(next); }
    assert B.Pending(b, 0)[..0] == [] && B.Pending(b, 0)[0..] == B.Pending(b, 0);
    hide Held, Next, B.Enqueue, AfterShed, B.Pending, B.LineFor, Line;
    Arrives(a, b, 2, lines, [], 0, b);
    TaggedOne("", WasShed);
    assert [] + Tagged([], WasShed) == [];
  }

  lemma BothRead(a2: State)
    requires Stands(a2, Held(Some(Shared()), 0, 0, 3, TOTAL, 0), 2, FirstTwo(), []) && a2.flight.None?
    ensures var a3 := Next(a2, Read);
      && Stands(a3, Held(Some(Shared()), 0, 0, 3, TOTAL, 0), 2, FirstTwo(), []) && a3.flight.Some?
      && a3.flight.value.batch.taken == [(2, 2 * LINE_BYTES), (0, 0), (0, 0)]
      && a3.flight.value.lines[0] == FirstTwo()
    ensures Next(a2, Read).buf.nextSeq == 3
  {
    HeldPending(3, TOTAL, 0);
    HeldOthers(Some(Shared()), 3, TOTAL, 0);
    assert FirstTwo() == [Line(1), Line(2)] && FirstTwo()[..2] == FirstTwo();
    hide Next, Shared, Line, B.Pending;
    Reads(a2, Held(Some(Shared()), 0, 0, 3, TOTAL, 0), 2, FirstTwo(), [], 1, 2);
  }

  lemma BothShed(a3: State)
    requires Stands(a3, Held(Some(Shared()), 0, 0, 3, TOTAL, 0), 2, FirstTwo(), []) && a3.flight.Some?
    ensures var a4 := Next(a3, Arrive(EVENT));
      && Stands(a4, Held(Some(Own(3)), 0, 0, 4, LINE_BYTES, 2), 2, AllThree(), Tagged(FirstTwo(), WasShed))
      && a4.flight.Some? && a4.flight.value.batch == a3.flight.value.batch
      && a4.flight.value.lines == a3.flight.value.lines
  {
    var b, shed := Held(Some(Shared()), 0, 0, 3, TOTAL, 0), Held(None, 0, 0, 3, 0, 2);
    assert FirstTwo() + [Line(3)] == AllThree() && |FirstTwo()| == 2 && b.maxTotal == TOTAL;
    assert FirstTwo()[..2] == FirstTwo() && FirstTwo()[2..] == [];
    assert [] + Tagged(FirstTwo(), WasShed) == Tagged(FirstTwo(), WasShed);
    assert |Line(3)| <= TOTAL by { LineFacts(3); }
    hide Next, Held, Own, Line, Stands, Shared, B.Pending, B.Enqueue, AfterShed, B.LineFor, Tagged, AllThree, FirstTwo;
    HeldPending(3, TOTAL, 0);
    NonePending(0, 0, 3, 0, 2);
    HeldSheds();
    HeldLine(Some(Shared()), 3, TOTAL, 0);
    Arrives(a3, b, 2, FirstTwo(), [], 2, shed);
  }

  lemma BothCommitted(a4: State)
    requires Stands(a4, Held(Some(Own(3)), 0, 0, 4, LINE_BYTES, 2), 2, AllThree(), Tagged(FirstTwo(), WasShed))
    requires a4.flight.Some? && a4.flight.value.batch.taken == [(2, 2 * LINE_BYTES), (0, 0), (0, 0)]
    requires a4.flight.value.lines[0] == FirstTwo()
    ensures Stands(Next(a4, Answer(Status(200, false))), Held(None, 1, LINE_BYTES, 4, 0, 2), 2, AllThree(),
                   Tagged(FirstTwo(), WasShed) + Tagged(FirstTwo(), WasDelivered))
  {
    hide Next, Held, Own, Line, Stands, Tagged, B.Commit, AllThree, FirstTwo;
    HeldCommits(a4.flight.value.batch);
    Commits(a4, Held(Some(Own(3)), 0, 0, 4, LINE_BYTES, 2), 2, AllThree(), Tagged(FirstTwo(), WasShed));
  }

  lemma {:induction false} HeldRun(a0: State)
    requires Stands(a0, Held(None, 0, 0, 1, 0, 0), 2, [], []) && a0.flight.None? && a0.buf.nextSeq == 1
    ensures Stands(Run(a0, LosingSteps()), Held(None, 1, LINE_BYTES, 4, 0, 2), 2, AllThree(),
                   Tagged(FirstTwo(), WasShed) + Tagged(FirstTwo(), WasDelivered))
    ensures Feasible(a0)
  {
    FiveSteps(a0);
    assert |LosingSteps()| == 5;
    hide Run, Next, Feasible, LosingSteps, Held, Own, Line, Stands, Tagged, AllThree, FirstTwo, Shared;
    var s := LosingSteps();
    var a1, a2, a3, a4 := Run(a0, s[..1]), Run(a0, s[..2]), Run(a0, s[..3]), Run(a0, s[..4]);
    BothArrived(a0, a1, a2);
    BothRead(a2);
    BothShed(a3);
    BothCommitted(a4);
    FeasibleIf(a0);
  }

  lemma ThreeOffered()
    ensures Offered(LosingSteps(), 0) == 3
  {
    var s := LosingSteps();
    assert s[..4][..3] == s[..3] && s[..3][..2] == s[..2] && s[..2][..1] == s[..1] && s[..1][..0] == [];
    assert Offered(s[..1], 0) == 1;
    assert Offered(s[..2], 0) == 2;
    assert Offered(s[..3], 0) == 2;
    assert Offered(s[..4], 0) == 3;
  }

  lemma FourAccounted()
    ensures Count(Tagged(FirstTwo(), WasShed) + Tagged(FirstTwo(), WasDelivered), WasDelivered) == 2
  {
    CountTagged(FirstTwo(), WasShed, WasDelivered);
    CountTagged(FirstTwo(), WasDelivered, WasDelivered);
    assert |FirstTwo()| == 2;
    hide Tagged, Count, FirstTwo;
    CountAppend(Tagged(FirstTwo(), WasShed), Tagged(FirstTwo(), WasDelivered), WasDelivered);
  }

  /** The totals come apart: of three events two are counted as delivered and two as dropped,
  while the third, which was stored and is neither, is gone from the queue.  One consumed
  entry too many stays behind. */
  lemma {:induction false} CountsTooMany()
    ensures var a := Run(Start(B.Empty(TOTAL, SEGMENT_MAX), 2, MAX_BATCH_BYTES), LosingSteps());
      && a.log[0].stored == [Line(1), Line(2), Line(3)] && B.Pending(a.buf, 0) == []
      && Line(3) !in LinesLeft(a.log[0].left)
      && Offered(LosingSteps(), 0) == 3
      && Count(a.log[0].left, WasDelivered) + a.buf.total[0] + |B.Pending(a.buf, 0)| == 4
      && a.buf.queues[0] == Q.Queue([], None, 1, LINE_BYTES)
    ensures Feasible(Start(B.Empty(TOTAL, SEGMENT_MAX), 2, MAX_BATCH_BYTES))
  {
    var a0 := Start(B.Empty(TOTAL, SEGMENT_MAX), 2, MAX_BATCH_BYTES);
    assert a0.buf.nextSeq == 1;
    StartStands(SEGMENT_MAX, 2);
    assert B.Empty(TOTAL, SEGMENT_MAX) == Held(None, 0, 0, 1, 0, 0);
    NonePending(1, LINE_BYTES, 4, 0, 2);
    ThreeOffered();
    FourAccounted();
    ThirdNotLeft();
    hide Run, Start, Feasible, LosingSteps, B.Pending, Line, Tagged, FirstTwo, Count, Offered, LinesLeft;
    HeldRun(a0);
  }

  lemma Differ(m: nat, n: nat)
    requires m <= 9 && n <= 9 && m != n
    ensures Line(m) != Line(n)
  {
    LineFacts(m);
    LineFacts(n);
    hide Line, ParseLine;
  }

  lemma ThirdNotLeft()
    ensures Line(3) !in LinesLeft(Tagged(FirstTwo(), WasShed) + Tagged(FirstTwo(), WasDelivered))
  {
    Differ(1, 3);
    Differ(2, 3);
    hide Line;
    var left := Tagged(FirstTwo(), WasShed) + Tagged(FirstTwo(), WasDelivered);
    assert LinesLeft(left) == FirstTwo() + FirstTwo();
    hide LinesLeft, Tagged;
  }
}
