/** The life of an agent: runs, each ended by a crash, and the reopening of what was on disk. */
module AgentLife {
  import opened Basics
  import opened Lines
  import opened LineFormat
  import opened Ordering
  import opened Delivery
  import opened AgentRun
  import B = BufferModel
  import Q = SegmentQueue
  import R = Recovery

  /** What the agent was doing: nothing to the files, except for a line being appended; making
  room for an event, with `sheds` segments already deleted; or committing an accepted batch. */
  datatype Crash = Idle | Arriving(ev: B.Event, sheds: nat) | Committing

  /** A run with its configuration, the crash that ended it, and how the buffer was reopened;
  `gone[c]` segments of class c had been deleted by the commit under way. */
  datatype Session = Session(events: nat, bytes: nat, steps: seq<Step>, crash: Crash,
                             gone: seq<nat>, debris: seq<R.Debris>, dirs: seq<R.Directory>,
                             listings: seq<seq<string>>, maxTotal: nat, segmentMax: nat)

  /** The buffer after so many segments have been shed. */
  function ShedTimes(b: B.Three, n: nat): B.Three
    decreases n
  {
    if n == 0 then b else ShedTimes(B.ShedOne(b).0, n - 1)
  }

  /** The shedding loop gets that far. */
  predicate LoopReaches(b: B.Three, len: nat, n: nat)
    decreases n
  {
    n == 0 || (b.stored + len > b.maxTotal && LoopReaches(B.ShedOne(b).0, len, n - 1))
  }

  function AtCrash(b: B.Three, s: Session): State {
    Run(Start(b, s.events, s.bytes), s.steps)
  }

  /** The buffer whose files, up to the deletions of a commit, are on disk. */
  function OnDisk(b: B.Three, crash: Crash): B.Three {
    if crash.Arriving? then ShedTimes(b, crash.sheds) else b
  }

  /** What the step cut off by the crash had already delivered or shed. */
  function OutAtCrash(a: State, crash: Crash, c: nat): seq<string>
    requires c < 3
  {
    match crash
    case Idle => []
    case Arriving(_, sheds) =>
      var p := B.Pending(a.buf, c);
      p[..SaturatingSub(|p|, |B.Pending(ShedTimes(a.buf, sheds), c)|)]
    case Committing => if a.flight.Some? then a.flight.value.lines[c] else []
  }

  ghost predicate WellListed(s: Session) {
    && |s.listings| == |s.dirs| == 3
    && forall c | 0 <= c < 3 ::
         R.NoDuplicates(s.listings[c]) && forall n :: n in s.listings[c] <==> n in s.dirs[c]
  }

  /** How far the step under way can have got. */
  ghost predicate Underway(a: State, s: Session) {
    match s.crash
    case Idle => s.gone == [0, 0, 0]
    case Arriving(ev, sheds) =>
      && Possible(a, Arrive(ev)) && s.gone == [0, 0, 0]
      && |B.LineFor(a.buf, ev)| <= a.buf.maxTotal && LoopReaches(a.buf, |B.LineFor(a.buf, ev)|, sheds)
    case Committing =>
      && a.flight.Some? && |s.gone| == 3
      && (forall c | 0 <= c < 3 :: a.flight.value.batch.taken[c].0 > 0 ==> !a.flight.value.stale[c])
      && forall c | 0 <= c < 3 ::
           s.gone[c] + |Q.Segs(B.Commit(a.buf, a.flight.value.batch).queues[c])| <= |Q.Segs(a.buf.queues[c])|
  }

  ghost predicate SessionOk(b: B.Three, s: Session) {
    && Legal(Start(b, s.events, s.bytes), s.steps)
    && Underway(AtCrash(b, s), s)
    && R.CrashImage(OnDisk(AtCrash(b, s).buf, s.crash), s.gone, s.debris, s.dirs)
    && WellListed(s)
  }

  ghost function Again(s: Session): B.Three {
    if WellListed(s) then R.Reopened(s.maxTotal, s.segmentMax, s.listings, s.dirs)
    else B.Empty(s.maxTotal, s.segmentMax)
  }

  /** Each session starts on what the one before it left. */
  ghost predicate LifeOk(b: B.Three, life: seq<Session>)
    decreases |life|
  {
    life == [] || (SessionOk(b, life[0]) && LifeOk(Again(life[0]), life[1..]))
  }

  /** The buffer on which session k starts, or which is there at the end. */
  ghost function BufferAt(b: B.Three, life: seq<Session>, k: nat): B.Three
    requires k <= |life|
    decreases |life|
  {
    if k == 0 then b else BufferAt(Again(life[0]), life[1..], k - 1)
  }

  /** The line left in the first session, delivered or shed, the step cut off by its crash included;
  or it was pending again after it, and so on; or it is pending at the end. */
  ghost predicate Accounted(b: B.Three, life: seq<Session>, c: nat, line: string)
    requires c < 3
    decreases |life|
  {
    if life == [] then line in B.Pending(b, c)
    else
      var a := AtCrash(b, life[0]);
      || line in LinesLeft(a.log[c].left)
      || line in OutAtCrash(a, life[0].crash, c)
      || (line in B.Pending(Again(life[0]), c) && Accounted(Again(life[0]), life[1..], c, line))
  }

  // -------------------------------------------------- what a run keeps on disk

  predicate EndsIn(all: seq<string>, tail: seq<string>) {
    |tail| <= |all| && tail == all[|all| - |tail|..]
  }

  /** What is on disk are the lines stored last, those consumed but not yet deleted included. */
  ghost predicate KeepsLast(a: State) {
    forall c | 0 <= c < 3 :: EndsIn(a.log[c].stored, StoredLines(a.buf, c))
  }

  /** A buffer as opening leaves it, with nothing consumed. */
  ghost predicate Fresh(b: B.Three) {
    Opened(b) && forall c | 0 <= c < 3 :: B.Pending(b, c) == StoredLines(b, c)
  }

  lemma EndsInEndsIn(a: seq<string>, b: seq<string>, c: seq<string>)
    requires EndsIn(a, b) && EndsIn(b, c)
    ensures EndsIn(a, c)
  {
  }

  lemma BothGrow(all: seq<string>, tail: seq<string>, more: seq<string>)
    requires EndsIn(all, tail)
    ensures EndsIn(all + more, tail + more)
  {
  }

  lemma FrontRemovedEnds(before: Q.Queue, after: Q.Queue, bound: nat)
    requires Q.FrontRemoved(before, after) && TidySegments(Q.Segs(before), bound)
    ensures EndsIn(Q.LinesOf(Q.Segs(before)), Q.LinesOf(Q.Segs(after)))
  {
    hide TidySegments, Q.FrontRemoved, Q.LinesOf, Q.Segs;
    var m := FrontRemovedTidy(before, after, bound);
  }

  lemma ShedOnceKeeps(b: B.Three, c: nat) returns (n: nat)
    requires B.Wf(b) && Tidy(b) && c < 3
    ensures var b' := B.ShedOne(b).0;
      && B.Wf(b') && Tidy(b')
      && n <= |B.Pending(b, c)| && B.Pending(b', c) == B.Pending(b, c)[n..]
      && EndsIn(StoredLines(b, c), StoredLines(b', c))
  {
    hide B.Wf, TidySegments, B.ShedOne, Q.Segs, Q.Pending, Q.LinesOf, Q.FrontRemoved, DistinctLines;
    var d := B.ShedOneSpec(b);
    var b' := B.ShedOne(b).0;
    if B.AllEmpty(b) {
      n := 0;
    } else {
      ShedOnceRemoves(b, b', d);
      RemovalKeepsTidy(b, b');
      FrontRemovedEnds(b.queues[c], b'.queues[c], b.nextSeq);
      n := if d == c then |B.Pending(b, c)| - |B.Pending(b', c)| else 0;
    }
  }

  lemma {:induction false} ShedTimesKeeps(b: B.Three, times: nat, c: nat) returns (n: nat)
    requires B.Wf(b) && Tidy(b) && c < 3
    ensures var b' := ShedTimes(b, times);
      && B.Wf(b') && Tidy(b')
      && n <= |B.Pending(b, c)| && B.Pending(b', c) == B.Pending(b, c)[n..]
      && EndsIn(StoredLines(b, c), StoredLines(b', c))
    decreases times
  {
    hide B.Wf, Tidy, B.ShedOne, B.Pending, StoredLines;
    if times == 0 {
      n := 0;
    } else {
      var k := ShedOnceKeeps(b, c);
      n := ShedTimesKeeps(B.ShedOne(b).0, times - 1, c);
      n := k + n;
    }
  }

  /** The states of the shedding loop are these. */
  lemma {:induction false} LoopEnds(b: B.Three, len: nat) returns (n: nat)
    requires B.Wf(b) && len <= b.maxTotal
    ensures LoopReaches(b, len, n) && ShedTimes(b, n) == B.ShedUntil(b, len).0
    decreases B.SegmentCount(b)
  {
    hide B.Wf, B.ShedOne, B.SegmentCount;
    n := 0;
    if b.stored + len > b.maxTotal {
      var c := B.ShedOneSpec(b);
      if B.AllEmpty(b) { B.EmptyStoresNothing(b); }
      B.KeepsLimits(b, B.ShedOne(b).0, c);
      n := LoopEnds(B.ShedOne(b).0, len);
      n := n + 1;
    }
  }

  lemma {:induction false} EnqueueEnds(b: B.Three, ev: B.Event, c: nat)
    requires B.Wf(b) && Tidy(b) && b.nextSeq <= U64_MAX && IsJsonObject(ev.json) && c < 3
    ensures var mine := ev.cls.ShedPriority() == c && |B.LineFor(b, ev)| <= b.maxTotal;
      EndsIn(StoredLines(b, c) + (if mine then [B.LineFor(b, ev)] else []), StoredLines(B.Enqueue(b, ev), c))
  {
    hide B.Wf, Tidy, FormatLine, IsJsonObject, IsLine, B.ShedUntil, Q.Append, Q.Segs, Q.LinesOf, Q.Wf;
    hide B.ShedBy, ShedTimes;
    ParseInvertsFormat(b.nextSeq, ev.json);
    var line := B.LineFor(b, ev);
    if |line| <= b.maxTotal {
      var n := LoopEnds(b, |line|);
      var k := ShedTimesKeeps(b, n, c);
      var d := B.ShedUntilSpec(b, |line|);
      var b1 := B.ShedUntil(b, |line|).0;
      var q := b1.queues[ev.cls.ShedPriority()];
      assert Q.Wf(q) by { QueueWf(b1, ev.cls.ShedPriority()); }
      Q.AppendAddsLine(q, line, b.nextSeq, b1.segmentMax);
      B.ShedByKeeps(b, b1, d);
      BothGrow(StoredLines(b, c), StoredLines(b1, c), [line]);
    }
    assert StoredLines(b, c) + [] == StoredLines(b, c);
  }

  lemma {:induction false} StepKeepsLast(a: State, s: Step)
    requires Inv(a) && Possible(a, s) && Clean(a, s) && KeepsLast(a)
    ensures KeepsLast(Next(a, s))
  {
    hide LogOk, B.Wf, Tidy, IsJsonObject, B.Enqueue, B.Commit, StoredLines, EndsIn, B.LineFor, ReadFlight, ShedLines;
    hide ArriveFlight, Tagged, FlightOk;
    var a' := Next(a, s);
    forall c | 0 <= c < 3 ensures EndsIn(a'.log[c].stored, StoredLines(a'.buf, c)) {
      assert EndsIn(a.log[c].stored, StoredLines(a.buf, c));
      match s
      case Arrive(ev) => ArriveKeepsLast(a, ev, c);
      case Read =>
      case Answer(r) => if a.flight.Some? && Accepts(r) { CommitKeepsLast(a, r, c); }
      case Heartbeat => SameStored(a.buf, a'.buf, c);
    }
  }

  lemma SameStored(b: B.Three, b': B.Three, c: nat)
    requires c < 3 && b'.queues == b.queues
    ensures StoredLines(b', c) == StoredLines(b, c)
  {
  }

  lemma ArriveKeepsLast(a: State, ev: B.Event, c: nat)
    requires Inv(a) && Possible(a, Arrive(ev)) && c < 3 && EndsIn(a.log[c].stored, StoredLines(a.buf, c))
    ensures EndsIn(ArriveLog(a.log[c], a.buf, ev, c).stored, StoredLines(B.Enqueue(a.buf, ev), c))
  {
    hide LogOk, B.Wf, Tidy, IsJsonObject, B.Enqueue, StoredLines, EndsIn, B.LineFor, ShedLines, Tagged, FlightOk;
    var mine := ev.cls.ShedPriority() == c && |B.LineFor(a.buf, ev)| <= a.buf.maxTotal;
    var more := if mine then [B.LineFor(a.buf, ev)] else [];
    EnqueueEnds(a.buf, ev, c);
    BothGrow(a.log[c].stored, StoredLines(a.buf, c), more);
    EndsInEndsIn(a.log[c].stored + more, StoredLines(a.buf, c) + more, StoredLines(B.Enqueue(a.buf, ev), c));
  }

  /** The lines of an unspoilt flight are prefixes of the pending lines. */
  lemma FlightTakes(a: State)
    requires Inv(a) && a.flight.Some?
    requires forall c | 0 <= c < 3 :: a.flight.value.batch.taken[c].0 > 0 ==> !a.flight.value.stale[c]
    ensures var f := a.flight.value;
      && B.TakesPrefixes(a.buf, f.batch.taken)
      && forall c | 0 <= c < 3 ::
           |f.lines[c]| == f.batch.taken[c].0 && f.lines[c] <= B.Pending(a.buf, c)
  {
    hide LogOk, Tidy, B.Wf, B.Pending, Size;
    var f := a.flight.value;
    forall d | 0 <= d < 3
      ensures f.batch.taken[d] == (|f.lines[d]|, Size(f.lines[d])) && |f.lines[d]| <= |B.Pending(a.buf, d)|
      ensures f.lines[d] == B.Pending(a.buf, d)[..|f.lines[d]|]
    {
      assert FlightOk(f, a.buf, a.log[d].left, d);
    }
  }

  lemma CommitKeepsLast(a: State, r: Response, c: nat)
    requires Inv(a) && Clean(a, Answer(r)) && a.flight.Some? && Accepts(r) && c < 3
    requires EndsIn(a.log[c].stored, StoredLines(a.buf, c))
    ensures EndsIn(a.log[c].stored, StoredLines(B.Commit(a.buf, a.flight.value.batch), c))
  {
    hide LogOk, FlightOk, B.Wf, TidySegments, DistinctLines, B.Commit, EndsIn, B.TakesPrefixes, Q.FrontRemoved;
    var b' := B.Commit(a.buf, a.flight.value.batch);
    FlightTakes(a);
    B.CommitTakenSpec(a.buf, a.flight.value.batch);
    FrontRemovedEnds(a.buf.queues[c], b'.queues[c], a.buf.nextSeq);
    EndsInEndsIn(a.log[c].stored, StoredLines(a.buf, c), StoredLines(b', c));
  }

  lemma {:induction false} RunKeepsLast(a: State, steps: seq<Step>)
    requires Inv(a) && Legal(a, steps) && KeepsLast(a)
    ensures Inv(Run(a, steps)) && KeepsLast(Run(a, steps))
  {
    hide Inv, Next, Possible, Clean, KeepsLast;
    if steps != [] {
      var init, s := steps[..|steps| - 1], steps[|steps| - 1];
      assert forall i | 0 <= i < |init| :: init[..i] == steps[..i] && init[i] == steps[i];
      RunKeepsLast(a, init);
      assert Possible(Run(a, init), s) && Clean(Run(a, init), s);
      StepKeeps(Run(a, init), s);
      StepKeepsLast(Run(a, init), s);
    }
  }

  lemma QueueWf(b: B.Three, c: nat)
    requires B.Wf(b) && c < 3
    ensures Q.Wf(b.queues[c])
  {
  }

  // ------------------------------------------------------------------ one crash

  /** What is pending after the crash: perhaps some lines that had been consumed, and then all that
  was pending and was neither delivered nor shed by the step cut off. */
  ghost predicate Survives(before: seq<string>, out: seq<string>, after: seq<string>) {
    out <= before && exists again :: after == again + before[|out|..]
  }

  lemma {:induction false} CrashSurvived(a: State, s: Session, c: nat)
    requires Inv(a) && Underway(a, s) && WellListed(s) && c < 3
    requires R.CrashImage(OnDisk(a.buf, s.crash), s.gone, s.debris, s.dirs)
    ensures Survives(B.Pending(a.buf, c), OutAtCrash(a, s.crash, c), B.Pending(Again(s), c))
  {
    hide Inv, R.CrashImage, WellListed, Again, LoopReaches, ShedTimes, Possible, B.Commit;
    if s.crash.Committing? {
      CommitSurvived(a, s, c);
    } else {
      RestSurvived(a, s, c);
    }
  }

  lemma {:induction false} RestSurvived(a: State, s: Session, c: nat)
    requires Inv(a) && !s.crash.Committing? && s.gone == [0, 0, 0] && WellListed(s) && c < 3
    requires R.CrashImage(OnDisk(a.buf, s.crash), s.gone, s.debris, s.dirs)
    ensures Survives(B.Pending(a.buf, c), OutAtCrash(a, s.crash, c), B.Pending(Again(s), c))
  {
    hide LogOk, FlightOk, Tidy, B.Wf, R.CrashImage, R.Reopened, ShedTimes, StoredLines, B.Pending;
    var n := ShedTimesKeeps(a.buf, if s.crash.Arriving? then s.crash.sheds else 0, c);
    assert ShedTimes(a.buf, 0) == a.buf by { NoSheds(a.buf); }
    var b := OnDisk(a.buf, s.crash);
    R.ReopenKeepsPending(b, s.gone, s.debris, s.dirs, s.listings, s.maxTotal, s.segmentMax, c);
    assert B.Pending(Again(s), c) == StoredLines(b, c)[..b.queues[c].consumedEntries] + B.Pending(b, c);
  }

  lemma NoSheds(b: B.Three)
    ensures ShedTimes(b, 0) == b
  {
  }

  lemma {:induction false} CommitSurvived(a: State, s: Session, c: nat)
    requires Inv(a) && s.crash.Committing? && Underway(a, s) && WellListed(s) && c < 3
    requires R.CrashImage(a.buf, s.gone, s.debris, s.dirs)
    ensures Survives(B.Pending(a.buf, c), OutAtCrash(a, s.crash, c), B.Pending(Again(s), c))
  {
    hide LogOk, Tidy, B.Wf, R.CrashImage, R.Reopened, StoredLines, B.Pending, B.Commit, Q.Segs, Size;
    var f := a.flight.value;
    FlightTakes(a);
    B.CommitTakenSpec(a.buf, f.batch);
    R.CrashInCommit(a.buf, f.batch, s.gone, s.debris, s.dirs, s.listings, s.maxTotal, s.segmentMax);
    var e := a.buf.queues[c].consumedEntries + f.batch.taken[c].0;
    assert R.ComesBack(a.buf, B.Commit(a.buf, f.batch), Again(s), c, e);
    var after := B.Commit(a.buf, f.batch);
    var m: nat :| R.TailThen(StoredLines(a.buf, c), m, e, B.Pending(after, c), B.Pending(Again(s), c));
    assert B.Pending(Again(s), c) == StoredLines(a.buf, c)[m..e] + B.Pending(a.buf, c)[|f.lines[c]|..];
  }

  /** The next run finds pending again the last lines that were stored, and all of them but ones
  that left, as the run's own log says or in the step cut off by the crash. */
  ghost predicate HandsOver(a: State, s: Session, c: nat)
    requires c < 3
  {
    var stored, out, again := a.log[c].stored, OutAtCrash(a, s.crash, c), B.Pending(Again(s), c);
    && out <= B.Pending(a.buf, c)
    && EndsIn(stored, again)
    && |stored| <= |a.log[c].left| + |out| + |again|
  }

  /** What is on disk at the crash ends the lines stored. */
  lemma OnDiskEnds(a: State, crash: Crash, c: nat)
    requires Inv(a) && KeepsLast(a) && c < 3
    ensures var b := OnDisk(a.buf, crash);
      B.Wf(b) && Tidy(b) && EndsIn(a.log[c].stored, StoredLines(b, c))
  {
    hide LogOk, FlightOk, B.Wf, Tidy, StoredLines, EndsIn, ShedTimes;
    assert EndsIn(a.log[c].stored, StoredLines(a.buf, c));
    if crash.Arriving? {
      var n := ShedTimesKeeps(a.buf, crash.sheds, c);
      EndsInEndsIn(a.log[c].stored, StoredLines(a.buf, c), StoredLines(OnDisk(a.buf, crash), c));
    }
  }

  lemma DroppedFront(b: B.Three, c: nat, n: nat)
    requires B.Wf(b) && Tidy(b) && c < 3 && n <= |Q.Segs(b.queues[c])|
    ensures EndsIn(StoredLines(b, c), Q.LinesOf(Q.Segs(b.queues[c])[n..]))
  {
    hide B.Wf, Tidy, Q.LinesOf, Q.Segs;
    R.SuffixWhole(b, c, n);
  }

  lemma {:induction false} CrashHandsOver(a: State, s: Session, c: nat)
    requires Inv(a) && KeepsLast(a) && Underway(a, s) && WellListed(s) && c < 3
    requires R.CrashImage(OnDisk(a.buf, s.crash), s.gone, s.debris, s.dirs)
    ensures Fresh(Again(s)) && HandsOver(a, s, c)
  {
    CrashSurvived(a, s, c);
    OnDiskEnds(a, s.crash, c);
    var b := OnDisk(a.buf, s.crash);
    AgainIsFresh(b, s);
    assert s.gone[c] <= |Q.Segs(b.queues[c])|;
    assert a.log[c].stored == LinesLeft(a.log[c].left) + B.Pending(a.buf, c) by { assert LogOk(a, c); }
    hide Inv, LogOk, FlightOk, B.Wf, Tidy, StoredLines, EndsIn, OnDisk, R.CrashImage, Fresh, WellListed;
    hide Q.Segs, Q.LinesOf, KeepsLast, OutAtCrash, B.Pending, Again, Underway;
    DroppedFront(b, c, s.gone[c]);
    EndsInEndsIn(a.log[c].stored, StoredLines(b, c), B.Pending(Again(s), c));
  }

  lemma AgainIsFresh(b: B.Three, s: Session)
    requires B.Wf(b) && Tidy(b) && WellListed(s) && R.CrashImage(b, s.gone, s.debris, s.dirs)
    ensures Fresh(Again(s))
    ensures forall c | 0 <= c < 3 ::
      |s.gone| == 3 && s.gone[c] <= |Q.Segs(b.queues[c])|
      && B.Pending(Again(s), c) == Q.LinesOf(Q.Segs(b.queues[c])[s.gone[c]..])
  {
    hide B.Wf, Tidy, R.Reopened, Q.Segs, Q.LinesOf, B.Pending, R.Holds, R.DebrisOf, Opened;
    ReopenedIsOpened(b, s.gone, s.debris, s.dirs, s.listings, s.maxTotal, s.segmentMax);
    R.ReopenExact(b, s.gone, s.debris, s.dirs, s.listings, s.maxTotal, s.segmentMax);
  }

  /** Whatever state the agent was in when it crashed, and wherever in a line, or between two
  deletions of the shedding or of a commit, that was: all that was pending and not delivered or
  shed by the step under way is pending again, in order, and every legal run from there conserves it. */
  lemma {:induction false} ConservationAfterCrash(a: State, s: Session, next: Session)
    requires Inv(a) && Underway(a, s) && WellListed(s)
    requires R.CrashImage(OnDisk(a.buf, s.crash), s.gone, s.debris, s.dirs)
    requires Legal(Start(Again(s), next.events, next.bytes), next.steps)
    ensures forall c | 0 <= c < 3 :: Survives(B.Pending(a.buf, c), OutAtCrash(a, s.crash, c), B.Pending(Again(s), c))
    ensures Conserved(Again(s), next.steps, AtCrash(Again(s), next))
  {
    hide Again, Opened, Legal, Conserved, Run, Start, Inv, Underway, WellListed, R.CrashImage, OnDisk, OutAtCrash;
    hide B.Pending, StoredLines, Survives, B.Wf, Tidy;
    CrashSurvived(a, s, 0);
    CrashSurvived(a, s, 1);
    CrashSurvived(a, s, 2);
    OnDiskIsTidy(a, s.crash);
    AgainIsFresh(OnDisk(a.buf, s.crash), s);
    Conservation(Again(s), next.events, next.bytes, next.steps);
  }

  lemma OnDiskIsTidy(a: State, crash: Crash)
    requires Inv(a)
    ensures B.Wf(OnDisk(a.buf, crash)) && Tidy(OnDisk(a.buf, crash))
  {
    hide LogOk, FlightOk, B.Wf, Tidy, ShedTimes;
    if crash.Arriving? {
      var n := ShedTimesKeeps(a.buf, crash.sheds, 0);
    }
  }

  // ---------------------------------------------------------------- whole lives

  lemma FreshStart(b: B.Three, events: nat, bytes: nat)
    requires Fresh(b)
    ensures Inv(Start(b, events, bytes)) && KeepsLast(Start(b, events, bytes))
  {
    StartOk(b, events, bytes);
    hide Inv, Opened, StoredLines, B.Pending, EventCap, ByteCap;
    assert forall c | 0 <= c < 3 :: EndsIn(StoredLines(b, c), StoredLines(b, c));
  }

  lemma SessionHandsOver(b: B.Three, s: Session)
    requires Fresh(b) && SessionOk(b, s)
    ensures var a := AtCrash(b, s);
      && Inv(a) && Fresh(Again(s)) && forall c | 0 <= c < 3 :: HandsOver(a, s, c) && B.Pending(b, c) <= a.log[c].stored
  {
    hide Fresh, Inv, KeepsLast, Underway, R.CrashImage, WellListed, HandsOver, Legal, Run, OnDisk, B.Pending;
    FreshStart(b, s.events, s.bytes);
    RunKeepsLast(Start(b, s.events, s.bytes), s.steps);
    RunKeeps(Start(b, s.events, s.bytes), s.steps);
    CrashHandsOver(AtCrash(b, s), s, 0);
    CrashHandsOver(AtCrash(b, s), s, 1);
    CrashHandsOver(AtCrash(b, s), s, 2);
  }

  /** A stored line left in the session, or is pending when the next one starts. */
  lemma LeftOrAgain(a: State, s: Session, c: nat, line: string)
    requires Inv(a) && c < 3 && HandsOver(a, s, c) && line in a.log[c].stored
    ensures line in LinesLeft(a.log[c].left) || line in OutAtCrash(a, s.crash, c) || line in B.Pending(Again(s), c)
  {
    assert a.log[c].stored == LinesLeft(a.log[c].left) + B.Pending(a.buf, c) by { assert LogOk(a, c); }
    hide Inv, B.Pending, OutAtCrash, Again;
    EitherEnd(a.log[c].stored, LinesLeft(a.log[c].left), OutAtCrash(a, s.crash, c), B.Pending(a.buf, c),
              B.Pending(Again(s), c), line);
  }

  lemma EitherEnd(all: seq<string>, left: seq<string>, out: seq<string>, rest: seq<string>,
                  again: seq<string>, line: string)
    requires all == left + rest && out <= rest && line in all
    requires EndsIn(all, again) && |all| <= |left| + |out| + |again|
    ensures line in left || line in out || line in again
  {
    var i :| 0 <= i < |all| && all[i] == line;
    if i >= |all| - |again| {
      assert again[i - (|all| - |again|)] == line;
    } else if i >= |left| {
      assert out[i - |left|] == line;
    }
  }

  /** Every session of a life starts on a buffer with nothing consumed. */
  lemma {:induction false} SessionAt(b: B.Three, life: seq<Session>, k: nat)
    requires Fresh(b) && LifeOk(b, life) && k <= |life|
    ensures Fresh(BufferAt(b, life, k)) && LifeOk(BufferAt(b, life, k), life[k..])
    ensures k < |life| ==> SessionOk(BufferAt(b, life, k), life[k]) && BufferAt(b, life, k + 1) == Again(life[k])
    decreases k
  {
    hide Fresh, SessionOk, Again, Inv, AtCrash, HandsOver, B.Pending;
    if k == 0 {
      assert life[0..] == life;
    } else {
      SessionHandsOver(b, life[0]);
      SessionAt(Again(life[0]), life[1..], k - 1);
      assert life[1..][k - 1..] == life[k..];
    }
  }

  /** At least once.  From any buffer with nothing consumed, over any number of legal runs, each
  cut off by a crash: every line that a session had pending or stored is accounted for. */
  lemma {:induction false} AtLeastOnce(b: B.Three, life: seq<Session>, c: nat, line: string)
    requires Fresh(b) && LifeOk(b, life) && c < 3
    requires if life == [] then line in B.Pending(b, c) else line in AtCrash(b, life[0]).log[c].stored
    ensures Accounted(b, life, c, line)
    decreases |life|
  {
    hide Fresh, SessionOk, Again, AtCrash, OutAtCrash, B.Pending, LinesLeft, HandsOver, Inv;
    if life != [] {
      SessionHandsOver(b, life[0]);
      LeftOrAgain(AtCrash(b, life[0]), life[0], c, line);
      var next, rest := Again(life[0]), life[1..];
      if line in B.Pending(next, c) {
        if rest != [] {
          SessionHandsOver(next, rest[0]);
        }
        AtLeastOnce(next, rest, c, line);
      }
    }
  }

  /** So it is from whatever session on the line was stored in; and what a session finds pending
  are the last lines that the session before it had stored or found pending, in their order. */
  lemma {:induction false} NothingLostOrInvented(b: B.Three, life: seq<Session>, k: nat, c: nat)
    requires Fresh(b) && LifeOk(b, life) && k < |life| && c < 3
    ensures var start := BufferAt(b, life, k); var a := AtCrash(start, life[k]);
      && HandsOver(a, life[k], c)
      && BufferAt(b, life, k + 1) == Again(life[k])
      && B.Pending(start, c) <= a.log[c].stored
      && Conserved(start, life[k].steps, a)
      && forall line | line in a.log[c].stored :: Accounted(start, life[k..], c, line)
  {
    hide Opened, StoredLines, Again, B.Pending, HandsOver, Inv, BufferAt, LifeOk, Accounted, Conserved;
    hide Legal, Underway, WellListed, R.CrashImage, Run;
    SessionAt(b, life, k);
    var start := BufferAt(b, life, k);
    SessionHandsOver(start, life[k]);
    assert life[k..][0] == life[k];
    Conservation(start, life[k].events, life[k].bytes, life[k].steps);
    forall line | line in AtCrash(start, life[k]).log[c].stored ensures Accounted(start, life[k..], c, line) {
      AtLeastOnce(start, life[k..], c, line);
    }
  }
}
