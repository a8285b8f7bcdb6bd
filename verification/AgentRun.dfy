/** Whole runs of the agent: events arriving, batches read, posted and answered, heartbeats.
The history variables `log` and `flight` exist to state what a run conserves. */
module AgentRun {
  import opened Basics
  import opened Lines
  import opened LineFormat
  import opened Replay
  import opened Ordering
  import opened Delivery
  import B = BufferModel
  import Q = SegmentQueue
  import R = Recovery

  datatype Fate = WasDelivered | WasShed

  /** One class: every line that was pending at the start or stored since, every line that left
  with its fate (in order), events refused, and the sum of the drop deltas reported in
  heartbeats. */
  datatype ClassLog = ClassLog(stored: seq<string>, left: seq<(string, Fate)>, refused: nat, reported: nat)

  /** A batch that was read and not yet answered; `stale[c]` when class c was shed since. */
  datatype Flight = Flight(batch: Batch, lines: seq<seq<string>>, stale: seq<bool>)

  /** `ceiling` is the buffer's cap, or what was on disk at the start if that was more. */
  datatype Agent = Agent(buf: B.Buffer, cap: nat, maxBytes: nat, stopped: bool, flight: Option<Flight>,
                         log: seq<ClassLog>, ceiling: nat)

  datatype Step = Arrive(ev: B.Event) | Read | Answer(r: Response) | Heartbeat

  predicate Shaped(a: Agent) {
    && |a.buf.queues| == |a.buf.total| == |a.buf.reported| == |a.log| == 3
    && (a.flight.Some? ==> |a.flight.value.lines| == |a.flight.value.stale| == |a.flight.value.batch.taken| == 3)
  }

  type State = a: Agent | Shaped(a)
    witness Agent(B.Empty(0, 0), 1, 0, false, None, seq(3, _ => ClassLog([], [], 0, 0)), 0)

  function OpenLog(b: B.Three, c: nat): ClassLog
    requires c < 3
  {
    ClassLog(B.Pending(b, c), [], 0, 0)
  }

  /** The agent starts on whatever an earlier process left in the buffer's directory. */
  function Start(b: B.Three, configuredEvents: nat, configuredBytes: nat): State {
    Agent(b, EventCap(configuredEvents), ByteCap(configuredBytes), false, None,
          [OpenLog(b, 0), OpenLog(b, 1), OpenLog(b, 2)], Max(b.maxTotal, b.stored))
  }

  /** A buffer as opening leaves it: well-formed, in arrival order, no drops counted yet. */
  ghost predicate Opened(b: B.Three) {
    B.Wf(b) && Tidy(b) && b.total == [0, 0, 0] && b.reported == [0, 0, 0]
  }

  /** The longest prefix that fits, counted up one item at a time. */
  function Longest(items: seq<Item>, n: nat, maxEvents: nat, maxBytes: nat): nat
    decreases |items| - n
  {
    if n < |items| && Fits(items, n + 1, maxEvents, maxBytes) then Longest(items, n + 1, maxEvents, maxBytes) else n
  }

  function Tagged(ls: seq<string>, fate: Fate): seq<(string, Fate)> {
    seq(|ls|, i requires 0 <= i < |ls| => (ls[i], fate))
  }

  /** The buffer between the shedding and the append of an arriving event. */
  function AfterShed(b: B.Three, ev: B.Event): B.Three {
    var len := |B.LineFor(b, ev)|;
    if len > b.maxTotal then b else B.ShedUntil(b, len).0
  }

  function ShedLines(b: B.Three, ev: B.Event, c: nat): seq<string>
    requires c < 3
  {
    var p := B.Pending(b, c);
    p[..SaturatingSub(|p|, |B.Pending(AfterShed(b, ev), c)|)]
  }

  function ArriveLog(log: ClassLog, b: B.Three, ev: B.Event, c: nat): ClassLog
    requires c < 3
  {
    var mine, fits := ev.cls.ShedPriority() == c, |B.LineFor(b, ev)| <= b.maxTotal;
    ClassLog(log.stored + (if mine && fits then [B.LineFor(b, ev)] else []),
             log.left + Tagged(ShedLines(b, ev, c), WasShed),
             log.refused + (if mine && !fits then 1 else 0),
             log.reported)
  }

  function ArriveFlight(f: Flight, b: B.Three, ev: B.Event): Flight
    requires |f.stale| == 3
  {
    f.(stale := [f.stale[0] || ShedLines(b, ev, 0) != [], f.stale[1] || ShedLines(b, ev, 1) != [],
                 f.stale[2] || ShedLines(b, ev, 2) != []])
  }

  function ReadFlight(a: State): Option<Flight> {
    var backlog := B.Backlog(a.buf);
    var n := Longest(backlog, 0, a.cap, a.maxBytes);
    if n == 0 || n > |backlog| then None
    else
      var batch := BatchOf(backlog[..n]);
      Some(Flight(batch, [Prefix(a.buf, 0, batch), Prefix(a.buf, 1, batch), Prefix(a.buf, 2, batch)],
                  [false, false, false]))
  }

  function Prefix(b: B.Three, c: nat, batch: Batch): seq<string>
    requires c < 3 && |batch.taken| == 3
  {
    if batch.taken[c].0 <= |B.Pending(b, c)| then B.Pending(b, c)[..batch.taken[c].0] else []
  }

  function Next(a: State, s: Step): State {
    match s
    case Arrive(ev) =>
      a.(buf := B.Enqueue(a.buf, ev),
         flight := if a.flight.None? then None else Some(ArriveFlight(a.flight.value, a.buf, ev)),
         log := [ArriveLog(a.log[0], a.buf, ev, 0), ArriveLog(a.log[1], a.buf, ev, 1),
                 ArriveLog(a.log[2], a.buf, ev, 2)])
    case Read =>
      if a.stopped || a.flight.Some? then a else a.(flight := ReadFlight(a))
    case Answer(r) =>
      if a.flight.None? then a
      else
        var f := a.flight.value;
        if Accepts(r) then
          a.(buf := B.Commit(a.buf, f.batch), flight := None,
             log := [DeliveredLog(a.log[0], f.lines[0]), DeliveredLog(a.log[1], f.lines[1]),
                     DeliveredLog(a.log[2], f.lines[2])])
        else a.(flight := None, cap := CapAfter(a.cap, r), stopped := a.stopped || Revokes(r))
    case Heartbeat =>
      var (buf, delta) := B.TakeDelta(a.buf);
      a.(buf := buf,
         log := [ReportedLog(a.log[0], delta[0]), ReportedLog(a.log[1], delta[1]), ReportedLog(a.log[2], delta[2])])
  }

  function DeliveredLog(log: ClassLog, ls: seq<string>): ClassLog {
    log.(left := log.left + Tagged(ls, WasDelivered))
  }

  function ReportedLog(log: ClassLog, delta: nat): ClassLog {
    log.(reported := log.reported + delta)
  }

  // ------------------------------------------------------------------ invariant

  /** No accepted batch is committed after a class it took from was shed. */
  predicate Clean(a: State, s: Step) {
    s.Answer? && Accepts(s.r) && a.flight.Some? ==>
      var f := a.flight.value;
      forall c | 0 <= c < 3 :: f.batch.taken[c].0 > 0 ==> !f.stale[c]
  }

  /** What the types of the source guarantee: JSON on one line, and no u64 overflow. */
  ghost predicate Possible(a: State, s: Step) {
    s.Arrive? ==> IsJsonObject(s.ev.json) && a.buf.nextSeq <= U64_MAX
  }

  function LinesLeft(left: seq<(string, Fate)>): seq<string> {
    seq(|left|, i requires 0 <= i < |left| => left[i].0)
  }

  function Count(left: seq<(string, Fate)>, fate: Fate): nat {
    if left == [] then 0 else Count(left[..|left| - 1], fate) + if left[|left| - 1].1 == fate then 1 else 0
  }

  ghost predicate LogOk(a: State, c: nat)
    requires c < 3
  {
    var log := a.log[c];
    && log.stored == LinesLeft(log.left) + B.Pending(a.buf, c)
    && SortedLines(log.stored, a.buf.nextSeq)
    && a.buf.total[c] == log.refused + Count(log.left, WasShed)
    && a.buf.reported[c] == log.reported
  }

  /** What was read is still in front, or the class was shed and the first line read has left. */
  ghost predicate FlightOk(f: Flight, b: B.Three, left: seq<(string, Fate)>, c: nat)
    requires c < 3 && |f.lines| == |f.stale| == |f.batch.taken| == 3
  {
    && f.batch.taken[c] == (|f.lines[c]|, Size(f.lines[c]))
    && (!f.stale[c] ==> f.lines[c] <= B.Pending(b, c))
    && (f.stale[c] && f.lines[c] != [] ==> f.lines[c][0] in LinesLeft(left))
  }

  ghost predicate Inv(a: State) {
    && B.Wf(a.buf) && Tidy(a.buf)
    && 1 <= a.cap <= MAX_BATCH_EVENTS
    && a.buf.stored <= a.ceiling && a.buf.maxTotal <= a.ceiling
    && (forall c | 0 <= c < 3 :: LogOk(a, c))
    && (a.flight.Some? ==> forall c | 0 <= c < 3 :: FlightOk(a.flight.value, a.buf, a.log[c].left, c))
  }

  lemma {:induction false} CountAppend(a: seq<(string, Fate)>, b: seq<(string, Fate)>, fate: Fate)
    ensures Count(a + b, fate) == Count(a, fate) + Count(b, fate)
  {
    if b == [] {
      assert a + b == a;
    } else {
      assert (a + b)[..|a + b| - 1] == a + b[..|b| - 1];
      CountAppend(a, b[..|b| - 1], fate);
    }
  }

  lemma {:induction false} CountTagged(ls: seq<string>, fate: Fate, other: Fate)
    ensures Count(Tagged(ls, fate), other) == if fate == other then |ls| else 0
  {
    if ls != [] {
      assert Tagged(ls, fate)[..|ls| - 1] == Tagged(ls[..|ls| - 1], fate);
      CountTagged(ls[..|ls| - 1], fate, other);
    }
  }

  /** Lines leaving at the front of the pending lines keep the log balanced. */
  lemma LeaveFront(log: ClassLog, pending: seq<string>, k: nat, fate: Fate, extra: seq<string>)
    requires k <= |pending| && log.stored == LinesLeft(log.left) + pending
    ensures var left := log.left + Tagged(pending[..k], fate);
      && log.stored + extra == LinesLeft(left) + (pending[k..] + extra)
      && Count(left, WasShed) == Count(log.left, WasShed) + (if fate == WasShed then k else 0)
  {
    var out := Tagged(pending[..k], fate);
    CountAppend(log.left, out, WasShed);
    CountTagged(pending[..k], fate, WasShed);
    assert LinesLeft(log.left + out) == LinesLeft(log.left) + pending[..k];
  }

  // --------------------------------------------------------------------- steps

  lemma {:induction false} ArriveKeeps(a: State, ev: B.Event)
    requires Inv(a) && Possible(a, Arrive(ev))
    ensures Inv(Next(a, Arrive(ev)))
  {
    hide B.Wf, Tidy, B.Enqueue, B.Pending, FormatLine, LinesLeft, Tagged, Count, IsJsonObject, Size;
    ParseInvertsFormat(a.buf.nextSeq, ev.json);
    var d := B.EnqueueSpec(a.buf, ev);
    EnqueueKeepsTidy(a.buf, ev);
    var a' := Next(a, Arrive(ev));
    forall c | 0 <= c < 3
      ensures LogOk(a', c) && (a'.flight.Some? ==> FlightOk(a'.flight.value, a'.buf, a'.log[c].left, c))
    {
      ArriveClass(a, ev, c, d);
    }
  }

  lemma ShedLinesAre(b: B.Three, ev: B.Event, c: nat, d: seq<nat>)
    requires B.Wf(b) && IsLine(B.LineFor(b, ev)) && c < 3
    requires |d| == 3 && d[c] <= |B.Pending(b, c)|
    requires if |B.LineFor(b, ev)| > b.maxTotal then d[c] == 0
             else B.Accepted(b, B.Enqueue(b, ev), B.LineFor(b, ev), ev.cls.ShedPriority(), d)
    ensures ShedLines(b, ev, c) == B.Pending(b, c)[..d[c]]
  {
    hide B.Wf, FormatLine, IsLine, Q.Pending, Q.Segs, B.ShedUntil, Q.Append;
    if |B.LineFor(b, ev)| <= b.maxTotal {
      var e := B.ShedUntilSpec(b, |B.LineFor(b, ev)|);
      var b1 := B.ShedUntil(b, |B.LineFor(b, ev)|).0;
      assert B.Enqueue(b, ev).total[c] == b1.total[c];
    }
  }

  lemma {:induction false} ArriveClass(a: State, ev: B.Event, c: nat, d: seq<nat>)
    requires Inv(a) && Possible(a, Arrive(ev)) && IsLine(B.LineFor(a.buf, ev)) && c < 3
    requires var b, b' := a.buf, B.Enqueue(a.buf, ev); var line, k := B.LineFor(b, ev), ev.cls.ShedPriority();
      && (|line| > b.maxTotal ==> b' == B.AddDrops(b, k, 1) && d == [0, 0, 0])
      && (|line| <= b.maxTotal ==> B.Accepted(b, b', line, k, d))
      && b'.reported == b.reported && b'.nextSeq >= b.nextSeq
    ensures var a' := Next(a, Arrive(ev));
      LogOk(a', c) && (a'.flight.Some? ==> FlightOk(a'.flight.value, a'.buf, a'.log[c].left, c))
  {
    hide B.Wf, Tidy, B.Enqueue, FormatLine, LinesLeft, Tagged, Count, IsLine, Size, ShedLines;
    hide B.LineFor, B.Pending, SortedLines;
    var b, line, a' := a.buf, B.LineFor(a.buf, ev), Next(a, Arrive(ev));
    var extra := if ev.cls.ShedPriority() == c && |line| <= b.maxTotal then [line] else [];
    assert LogOk(a, c);
    ShedLinesAre(b, ev, c, d);
    if |line| > b.maxTotal { PendingOfQueues(b, B.Enqueue(b, ev), c); }
    assert B.Pending(b, c)[0..] + [] == B.Pending(b, c);
    assert B.Pending(a'.buf, c) == B.Pending(b, c)[d[c]..] + extra;
    assert a'.log[c] == ArriveLog(a.log[c], b, ev, c);
    LeaveFront(a.log[c], B.Pending(b, c), d[c], WasShed, extra);
    StoredSorted(a.log[c].stored, b, ev, extra, a'.buf.nextSeq);
    if a.flight.Some? {
      hide LogOk;
      assert FlightOk(a.flight.value, b, a.log[c].left, c);
      FlightArrives(a.flight.value, b, ev, a.log[c].left, c, d[c], extra, a'.buf);
    }
  }

  lemma FlightArrives(f: Flight, b: B.Three, ev: B.Event, left: seq<(string, Fate)>, c: nat, k: nat,
                      extra: seq<string>, b': B.Three)
    requires c < 3 && |f.lines| == |f.stale| == |f.batch.taken| == 3 && FlightOk(f, b, left, c)
    requires k <= |B.Pending(b, c)| && ShedLines(b, ev, c) == B.Pending(b, c)[..k]
    requires B.Pending(b', c) == B.Pending(b, c)[k..] + extra
    ensures FlightOk(ArriveFlight(f, b, ev), b', left + Tagged(B.Pending(b, c)[..k], WasShed), c)
  {
    hide B.Pending, ShedLines, LinesLeft, Tagged, Size;
    KeepsPrefix(f.lines[c], B.Pending(b, c), k, extra);
    FirstHasLeft(f.lines[c], left, B.Pending(b, c), k, f.stale[c]);
  }

  /** The lines stored so far stay in the order of their sequence numbers. */
  lemma StoredSorted(stored: seq<string>, b: B.Three, ev: B.Event, extra: seq<string>, next: nat)
    requires SortedLines(stored, b.nextSeq) && b.nextSeq <= U64_MAX && IsJsonObject(ev.json)
    requires if extra == [] then next >= b.nextSeq else extra == [B.LineFor(b, ev)] && next == b.nextSeq + 1
    ensures SortedLines(stored + extra, next)
  {
    hide FormatLine, IsJsonObject, ParseLine;
    if extra == [] {
      assert stored + extra == stored[0..];
      SuffixSorted(stored, 0, b.nextSeq, next);
    } else {
      ParseInvertsFormat(b.nextSeq, ev.json);
      SortedSnoc(stored, extra[0], b.nextSeq);
    }
  }

  /** When lines leave at the front, the first line that was read is among those that have left. */
  lemma FirstHasLeft(ls: seq<string>, left: seq<(string, Fate)>, pending: seq<string>, k: nat, stale: bool)
    requires k <= |pending| && ls != [] ==> if stale then ls[0] in LinesLeft(left) else ls <= pending
    requires k <= |pending|
    ensures ls != [] && (stale || pending[..k] != []) ==> ls[0] in LinesLeft(left + Tagged(pending[..k], WasShed))
  {
    var more := left + Tagged(pending[..k], WasShed);
    assert LinesLeft(more) == LinesLeft(left) + pending[..k];
    if ls != [] && !stale && pending[..k] != [] {
      assert ls[0] == pending[..k][0];
    }
  }

  /** Lines that were a prefix still are, unless something was removed at the front. */
  lemma KeepsPrefix(ls: seq<string>, pending: seq<string>, k: nat, extra: seq<string>)
    requires k <= |pending|
    ensures pending[..k] == [] && ls <= pending ==> ls <= pending[k..] + extra
  {
    if pending[..k] == [] && ls <= pending {
      assert k == 0 && pending[0..] == pending;
      assert (pending + extra)[..|ls|] == pending[..|ls|];
    }
  }

  lemma {:induction false} LongestIsLongest(items: seq<Item>, n: nat, maxEvents: nat, maxBytes: nat)
    requires Fits(items, n, maxEvents, maxBytes)
    ensures IsLongest(items, Longest(items, n, maxEvents, maxBytes), maxEvents, maxBytes)
    decreases |items| - n
  {
    hide Cost;
    if n < |items| && Fits(items, n + 1, maxEvents, maxBytes) {
      LongestIsLongest(items, n + 1, maxEvents, maxBytes);
    } else {
      StopsAtFirstMisfit(items, n, maxEvents, maxBytes);
    }
  }

  lemma {:induction false} ReadKeeps(a: State)
    requires Inv(a)
    ensures Inv(Next(a, Read))
  {
    hide B.Wf, Tidy, B.Pending, LogOk, Size, BatchOf, IsLongest, Longest, Merge, B.StreamsOf;
    var backlog := B.Backlog(a.buf);
    var n := Longest(backlog, 0, a.cap, a.maxBytes);
    var a' := Next(a, Read);
    assert forall c | 0 <= c < 3 :: LogOk(a', c) by { SameLogs(a, a'); }
    if !a.stopped && a.flight.None? && 0 < n <= |backlog| {
      TakesFits(a.buf, n);
    }
  }

  lemma SameLogs(a: State, a': State)
    requires Inv(a) && a'.buf == a.buf && a'.log == a.log
    ensures forall c | 0 <= c < 3 :: LogOk(a', c)
  {
    hide B.Pending, LinesLeft, Count;
    forall c | 0 <= c < 3 ensures LogOk(a', c) { assert LogOk(a, c); }
  }

  lemma TakesFits(b: B.Three, n: nat)
    requires B.Wf(b) && n <= |B.Backlog(b)|
    ensures B.TakesPrefixes(b, BatchOf(B.Backlog(b)[..n]).taken)
  {
    B.CommitSpec(b, n);
  }

  lemma {:induction false} AnswerKeeps(a: State, r: Response)
    requires Inv(a) && Clean(a, Answer(r))
    ensures Inv(Next(a, Answer(r)))
  {
    hide B.Wf, Tidy, B.Pending, B.Commit, Size, LinesLeft, Tagged, Count;
    var a' := Next(a, Answer(r));
    if a.flight.Some? && Accepts(r) {
      var f := a.flight.value;
      forall c | 0 <= c < 3
        ensures f.batch.taken[c].0 <= |B.Pending(a.buf, c)|
        ensures f.lines[c] == B.Pending(a.buf, c)[..f.batch.taken[c].0]
        ensures f.batch.taken[c].1 == Size(B.Pending(a.buf, c)[..f.batch.taken[c].0])
      {
        assert FlightOk(f, a.buf, a.log[c].left, c);
      }
      B.CommitTakenSpec(a.buf, f.batch);
      CommitKeepsTidy(a.buf, f.batch);
      forall c | 0 <= c < 3 ensures LogOk(a', c) {
        assert LogOk(a, c);
        LeaveFront(a.log[c], B.Pending(a.buf, c), f.batch.taken[c].0, WasDelivered, []);
        assert a.log[c].stored + [] == a.log[c].stored;
        assert B.Pending(a'.buf, c) + [] == B.Pending(a'.buf, c);
      }
    } else {
      SameLogs(a, a');
    }
  }

  /** The books of every class are right. */
  ghost predicate BooksOk(a: State) {
    forall c | 0 <= c < 3 :: LogOk(a, c)
  }

  /** An answer keeps the books if and only if it commits no batch that took from a class shed
  since the batch was read: otherwise a line that was shed leaves a second time, as delivered,
  while the commit consumes one that was not delivered. */
  lemma {:induction false} AnswerKeepsBooksIffClean(a: State, r: Response)
    requires Inv(a)
    ensures BooksOk(Next(a, Answer(r))) <==> Clean(a, Answer(r))
  {
    hide B.Wf, Tidy, B.Pending, B.Commit, Size, Tagged, Count, LogOk;
    if Clean(a, Answer(r)) {
      AnswerKeeps(a, r);
    } else {
      var f := a.flight.value;
      var c :| 0 <= c < 3 && f.batch.taken[c].0 > 0 && f.stale[c];
      assert FlightOk(f, a.buf, a.log[c].left, c);
      var a' := Next(a, Answer(r));
      assert a'.log[c] == DeliveredLog(a.log[c], f.lines[c]);
      LeavesTwice(a, a', c, f.lines[c]);
    }
  }

  /** A line that has left cannot leave again in the order in which lines were stored. */
  lemma {:induction false} LeavesTwice(a: State, a': State, c: nat, ls: seq<string>)
    requires c < 3 && LogOk(a, c) && a'.log[c] == DeliveredLog(a.log[c], ls)
    requires ls != [] && ls[0] in LinesLeft(a.log[c].left)
    ensures !LogOk(a', c)
  {
    hide B.Pending, Count, SortedLines;
    var left, more := a.log[c].left, a'.log[c].left;
    var i :| 0 <= i < |left| && LinesLeft(left)[i] == ls[0];
    assert LinesLeft(more)[i] == ls[0] && LinesLeft(more)[|left|] == ls[0];
    NoRepeat(a.log[c].stored, a.buf.nextSeq, LinesLeft(more), B.Pending(a'.buf, c), i, |left|);
  }

  lemma NoRepeat(stored: seq<string>, bound: nat, out: seq<string>, rest: seq<string>, i: nat, j: nat)
    requires SortedLines(stored, bound) && i < j < |out| && out[i] == out[j]
    ensures stored != out + rest
  {
    hide SeqOf, ParseLine;
    assert (out + rest)[i] == out[i] && (out + rest)[j] == out[j];
  }

  lemma PendingOfQueues(b: B.Three, b': B.Three, c: nat)
    requires c < 3 && b'.queues == b.queues
    ensures B.Pending(b', c) == B.Pending(b, c)
  {
  }

  lemma {:induction false} HeartbeatKeeps(a: State)
    requires Inv(a)
    ensures Inv(Next(a, Heartbeat))
  {
    hide Tidy, B.Pending, Size, LinesLeft, Count, Q.Wf, SortedLines;
    var a' := Next(a, Heartbeat);
    assert a'.buf.queues == a.buf.queues;
    SameQueues(a.buf, a'.buf);
    forall c | 0 <= c < 3
      ensures LogOk(a', c) && (a.flight.Some? ==> FlightOk(a'.flight.value, a'.buf, a'.log[c].left, c))
    {
      assert B.Pending(a'.buf, c) == B.Pending(a.buf, c) by { PendingOfQueues(a.buf, a'.buf, c); }
      assert LogOk(a, c) && a.buf.reported[c] <= a.buf.total[c];
      if a.flight.Some? { assert FlightOk(a.flight.value, a.buf, a.log[c].left, c); }
    }
  }

  // ---------------------------------------------------------------------- runs

  function Run(a: State, steps: seq<Step>): State {
    if steps == [] then a else Next(Run(a, steps[..|steps| - 1]), steps[|steps| - 1])
  }

  /** Every step is possible, and no commit follows a shed of a class its batch took from. */
  ghost predicate Legal(a: State, steps: seq<Step>) {
    forall i | 0 <= i < |steps| :: Possible(Run(a, steps[..i]), steps[i]) && Clean(Run(a, steps[..i]), steps[i])
  }

  /** Events of class c that arrived. */
  function Offered(steps: seq<Step>, c: nat): nat {
    if steps == [] then 0
    else
      var s := steps[|steps| - 1];
      Offered(steps[..|steps| - 1], c) + if s.Arrive? && s.ev.cls.ShedPriority() == c then 1 else 0
  }

  lemma StartOk(b: B.Three, configuredEvents: nat, configuredBytes: nat)
    requires Opened(b)
    ensures Inv(Start(b, configuredEvents, configuredBytes))
  {
    hide B.Wf, Tidy, B.Pending, SortedLines;
    var a := Start(b, configuredEvents, configuredBytes);
    forall c | 0 <= c < 3 ensures LogOk(a, c) {
      PendingSorted(b, c);
      assert LinesLeft([]) + B.Pending(b, c) == B.Pending(b, c);
    }
  }

  lemma {:induction false} StepKeeps(a: State, s: Step)
    requires Inv(a) && Possible(a, s) && Clean(a, s)
    ensures Inv(Next(a, s)) && Next(a, s).ceiling == a.ceiling
    ensures forall c | 0 <= c < 3 ::
      && a.log[c].stored <= Next(a, s).log[c].stored
      && |Next(a, s).log[c].stored| + Next(a, s).log[c].refused ==
         |a.log[c].stored| + a.log[c].refused + if s.Arrive? && s.ev.cls.ShedPriority() == c then 1 else 0
  {
    hide Inv, B.Enqueue, B.Commit, B.LineFor, ShedLines, Tagged, ReadFlight, Clean, ArriveFlight;
    match s
    case Arrive(ev) => ArriveKeeps(a, ev);
    case Read => ReadKeeps(a);
    case Answer(r) => AnswerKeeps(a, r);
    case Heartbeat => HeartbeatKeeps(a);
  }

  /** Every legal run keeps the invariant, whatever state it starts from. */
  lemma {:induction false} RunKeeps(a: State, steps: seq<Step>)
    requires Inv(a) && Legal(a, steps)
    ensures Inv(Run(a, steps)) && Run(a, steps).ceiling == a.ceiling
    ensures forall c | 0 <= c < 3 ::
      && a.log[c].stored <= Run(a, steps).log[c].stored
      && |Run(a, steps).log[c].stored| + Run(a, steps).log[c].refused ==
         |a.log[c].stored| + a.log[c].refused + Offered(steps, c)
  {
    hide Inv, Next, Possible, Clean;
    if steps != [] {
      var init, s := steps[..|steps| - 1], steps[|steps| - 1];
      assert forall i | 0 <= i < |init| :: init[..i] == steps[..i] && init[i] == steps[i];
      RunKeeps(a, init);
      assert steps[..|steps| - 1] == init;
      assert Possible(Run(a, init), s) && Clean(Run(a, init), s);
      StepKeeps(Run(a, init), s);
    }
  }

  lemma {:induction false} FatesCover(left: seq<(string, Fate)>)
    ensures Count(left, WasDelivered) + Count(left, WasShed) == |left|
  {
    if left != [] { FatesCover(left[..|left| - 1]); }
  }

  /** What a run from buffer `b` conserves, class by class.  The lines that were pending at the
  start, then those stored since, are in order: first those that left (each delivered in an
  accepted batch or shed) and then the pending ones.  Every event that was pending or arrived
  was delivered, counted as dropped, or is pending.  The deltas reported so far and the next
  one add up to all drops. */
  ghost predicate Conserved(b: B.Three, steps: seq<Step>, a: State) {
    forall c | 0 <= c < 3 ::
      && B.Pending(b, c) <= a.log[c].stored
      && a.log[c].stored == LinesLeft(a.log[c].left) + B.Pending(a.buf, c)
      && |B.Pending(b, c)| + Offered(steps, c) ==
         Count(a.log[c].left, WasDelivered) + a.buf.total[c] + |B.Pending(a.buf, c)|
      && a.log[c].reported + B.TakeDelta(a.buf).1[c] == a.buf.total[c]
  }

  /** Conservation over every legal run from any buffer an agent can open. */
  lemma {:induction false} Conservation(b: B.Three, configuredEvents: nat, configuredBytes: nat, steps: seq<Step>)
    requires Opened(b) && Legal(Start(b, configuredEvents, configuredBytes), steps)
    ensures Conserved(b, steps, Run(Start(b, configuredEvents, configuredBytes), steps))
  {
    hide Run, Legal, B.Pending, Offered, Count, LinesLeft, Inv, Opened;
    var a0 := Start(b, configuredEvents, configuredBytes);
    StartOk(b, configuredEvents, configuredBytes);
    RunKeeps(a0, steps);
    Balanced(Run(a0, steps), 0);
    Balanced(Run(a0, steps), 1);
    Balanced(Run(a0, steps), 2);
  }

  lemma {:induction false} ReopenedIsOpened(b: B.Three, gone: seq<nat>, debris: seq<R.Debris>,
      dirs: seq<R.Directory>, listings: seq<seq<string>>, maxTotal: nat, segmentMax: nat)
    requires B.Wf(b) && Tidy(b) && R.CrashImage(b, gone, debris, dirs) && |listings| == 3
    requires forall c | 0 <= c < 3 :: R.NoDuplicates(listings[c]) && forall n :: n in listings[c] <==> n in dirs[c]
    ensures var b' := R.Reopened(maxTotal, segmentMax, listings, dirs);
      Opened(b') && forall c | 0 <= c < 3 :: B.Pending(b', c) == Q.LinesOf(Q.Segs(b.queues[c])[gone[c]..])
  {
    R.ReopenExact(b, gone, debris, dirs, listings, maxTotal, segmentMax);
    hide B.Wf, Tidy, R.CrashImage, R.RecoveredClass, Q.LinesOf, Q.Segs, B.Pending, R.MaxSeqOf, Q.Bytes;
  }

  lemma Balanced(a: State, c: nat)
    requires Inv(a) && c < 3
    ensures a.log[c].stored == LinesLeft(a.log[c].left) + B.Pending(a.buf, c)
    ensures |a.log[c].stored| + a.log[c].refused ==
      Count(a.log[c].left, WasDelivered) + a.buf.total[c] + |B.Pending(a.buf, c)|
    ensures a.log[c].reported + B.TakeDelta(a.buf).1[c] == a.buf.total[c]
  {
    hide B.Pending, Count, Tidy, Q.Wf, B.StoredBytes;
    assert LogOk(a, c) && a.buf.reported[c] <= a.buf.total[c];
    FatesCover(a.log[c].left);
  }

  ghost predicate ReadsOldest(a: State, n: nat) {
    var backlog, flight := B.Backlog(a.buf), ReadFlight(a);
    && B.StoredBytes(a.buf) == a.buf.stored <= a.ceiling
    && 1 <= a.cap <= MAX_BATCH_EVENTS
    && Ascending(backlog)
    && IsLongest(backlog, n, a.cap, a.maxBytes)
    && (n == 0 <==> flight.None?) && (n == 0 <==> backlog == [])
    && (n > 0 ==>
          && flight.value.batch == BatchOf(backlog[..n])
          && |flight.value.lines| == 3
          && (forall c | 0 <= c < 3 :: TakesOldest(backlog[..n], c, flight.value.lines[c], B.Pending(a.buf, c))))
  }

  /** The items of class c are the given lines, one event each, and these come first. */
  ghost predicate TakesOldest(items: seq<Item>, c: nat, lines: seq<string>, pending: seq<string>) {
    && lines <= pending
    && (forall l | l in lines :: ParseLine(l).Some?)
    && OfClass(items, c) == OnePerLine(c, lines)
  }

  /** In every reachable state the byte count is exact, the files fit the cap (if what the agent
  opened did), and a read takes, oldest first across classes, exactly the longest prefix within
  both limits: its part in each class is a prefix of that class's pending lines, one event a
  line. */
  lemma {:induction false} ReadIsOldestFirst(b: B.Three, configuredEvents: nat, configuredBytes: nat, steps: seq<Step>)
    returns (n: nat)
    requires Opened(b) && Legal(Start(b, configuredEvents, configuredBytes), steps)
    ensures var a := Run(Start(b, configuredEvents, configuredBytes), steps);
      ReadsOldest(a, n) && a.ceiling == Max(b.maxTotal, b.stored)
  {
    hide Run, Legal, ReadsOldest, Inv, Opened, B.Pending;
    var a0 := Start(b, configuredEvents, configuredBytes);
    StartOk(b, configuredEvents, configuredBytes);
    RunKeeps(a0, steps);
    n := ReadSpec(Run(a0, steps));
  }

  lemma {:induction false} ReadSpec(a: State) returns (n: nat)
    requires Inv(a)
    ensures ReadsOldest(a, n)
  {
    hide B.Pending, Tidy, Merge, B.StreamsOf, BatchOf, Longest, B.StoredBytes, LogOk, FlightOk;
    hide Q.Wf, Cost, ParseLine, OfClass, Prefix;
    var backlog := B.Backlog(a.buf);
    BacklogIsSortedPending(a.buf);
    n := Longest(backlog, 0, a.cap, a.maxBytes);
    LongestIsLongest(backlog, 0, a.cap, a.maxBytes);
    FirstFits(backlog, a.cap, a.maxBytes);
    if n > 0 {
      ReadTakesPrefix(a.buf, n, 0);
      ReadTakesPrefix(a.buf, n, 1);
      ReadTakesPrefix(a.buf, n, 2);
    }
  }

  /** The first event is always taken, whatever its size. */
  lemma FirstFits(items: seq<Item>, maxEvents: nat, maxBytes: nat)
    requires maxEvents >= 1
    ensures items != [] ==> Fits(items, 1, maxEvents, maxBytes)
  {
  }

  /** Where every line parses, the items taken from a class are its first lines, one each. */
  lemma {:induction false} ReadTakesPrefix(b: B.Three, n: nat, c: nat)
    requires B.Wf(b) && Tidy(b) && n <= |B.Backlog(b)| && c < 3
    ensures |BatchOf(B.Backlog(b)[..n]).taken| == 3
    ensures TakesOldest(B.Backlog(b)[..n], c, Prefix(b, c, BatchOf(B.Backlog(b)[..n])), B.Pending(b, c))
  {
    hide B.Wf, Tidy, B.Pending, ParseLine, Merge, B.StreamsOf, ByteCount;
    BacklogIsSortedPending(b);
    TakesFits(b, n);
    var all, part := B.Backlog(b), B.Backlog(b)[..n];
    assert all == part + all[n..];
    OfClassAppend(part, all[n..], c);
    var mine := OfClass(part, c);
    assert mine == OnePerLine(c, B.Pending(b, c))[..|mine|];
    OneLineEach(c, B.Pending(b, c), |mine|);
  }

  lemma {:induction false} OneLineEach(c: nat, ls: seq<string>, k: nat)
    requires (forall l | l in ls :: ParseLine(l).Some?) && k <= |ls|
    ensures LineCount(OnePerLine(c, ls)[..k]) == k
    ensures OnePerLine(c, ls)[..k] == OnePerLine(c, ls[..k])
  {
    hide ParseLine;
    if k > 0 {
      OneLineEach(c, ls[1..], k - 1);
      assert OnePerLine(c, ls)[..k][1..] == OnePerLine(c, ls[1..])[..k - 1];
    }
  }
}
