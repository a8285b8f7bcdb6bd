/** Which events are given up first when the buffer is full, with the classes by name: network
activity before process activity, and authentication last. */
module ShedOrder {
  import opened Basics
  import opened Lines
  import opened LineFormat
  import opened Ordering
  import opened AgentRun
  import B = BufferModel
  import Q = SegmentQueue

  /** Where a class is kept. */
  function Slot(cls: B.EventClass): (slot: nat)
    ensures slot < 3
  {
    match cls
    case NetworkActivity => 0
    case ProcessActivity => 1
    case Authentication => 2
  }

  predicate ShedSooner(cls: B.EventClass, than: B.EventClass) {
    (cls.NetworkActivity? && !than.NetworkActivity?) || (cls.ProcessActivity? && than.Authentication?)
  }

  lemma SlotIsPriority(cls: B.EventClass)
    ensures cls.ShedPriority() == Slot(cls)
  {
  }

  /** An event that is stored becomes the last pending line of its own class, behind what shedding
  left of it; in the other classes, shedding only removes lines at the front.  An event that is
  refused counts as dropped in its own class, and every line shed in the class it was of. */
  lemma EnqueueByClass(b: B.Three, ev: B.Event, cls: B.EventClass) returns (shed: nat)
    requires B.Wf(b) && IsLine(B.LineFor(b, ev))
    ensures var b', line, fits := B.Enqueue(b, ev), B.LineFor(b, ev), |B.LineFor(b, ev)| <= b.maxTotal;
      && shed <= |B.Pending(b, Slot(cls))|
      && B.Pending(b', Slot(cls))
           == B.Pending(b, Slot(cls))[shed..] + (if fits && ev.cls == cls then [line] else [])
      && b'.total[Slot(cls)] == b.total[Slot(cls)] + shed + if !fits && ev.cls == cls then 1 else 0
  {
    var d := B.EnqueueSpec(b, ev);
    SlotIsPriority(ev.cls);
    hide B.Wf, IsLine, FormatLine, B.Enqueue, Q.Pending, Q.Segs;
    assert Slot(ev.cls) == Slot(cls) <==> ev.cls == cls;
    shed := d[Slot(cls)];
    assert B.Pending(b, Slot(cls))[0..] + [] == B.Pending(b, Slot(cls));
  }

  /** The drops since the last heartbeat, as the heartbeat names them. */
  datatype DroppedCounts = DroppedCounts(networkActivity: nat, processActivity: nat, authentication: nat)

  function Named(delta: seq<nat>): DroppedCounts
    requires |delta| == 3
  {
    DroppedCounts(delta[B.EventClass.NetworkActivity.ShedPriority()],
                  delta[B.EventClass.ProcessActivity.ShedPriority()],
                  delta[B.EventClass.Authentication.ShedPriority()])
  }

  /** An arriving event adds its own refusal, and the lines shed for it, to the next heartbeat's
  counts, each under the name of its class. */
  lemma DropsAreNamed(b: B.Three, ev: B.Event) returns (shed: DroppedCounts)
    requires B.Wf(b) && IsLine(B.LineFor(b, ev))
    ensures var refused := |B.LineFor(b, ev)| > b.maxTotal;
      var before, after := Named(B.TakeDelta(b).1), Named(B.TakeDelta(B.Enqueue(b, ev)).1);
      && after.networkActivity
           == before.networkActivity + shed.networkActivity + (if refused && ev.cls.NetworkActivity? then 1 else 0)
      && after.processActivity
           == before.processActivity + shed.processActivity + (if refused && ev.cls.ProcessActivity? then 1 else 0)
      && after.authentication
           == before.authentication + shed.authentication + (if refused && ev.cls.Authentication? then 1 else 0)
    ensures shed.networkActivity == |ShedLines(b, ev, Slot(B.EventClass.NetworkActivity))|
    ensures shed.processActivity == |ShedLines(b, ev, Slot(B.EventClass.ProcessActivity))|
    ensures shed.authentication == |ShedLines(b, ev, Slot(B.EventClass.Authentication))|
  {
    hide IsLine, FormatLine, B.Enqueue, Q.Pending, Q.Segs, Q.Wf, B.StoredBytes, ShedLines;
    var d := B.EnqueueSpec(b, ev);
    SlotIsPriority(ev.cls);
    ShedLinesAre(b, ev, 0, d);
    ShedLinesAre(b, ev, 1, d);
    ShedLinesAre(b, ev, 2, d);
    shed := DroppedCounts(d[0], d[1], d[2]);
  }

  /** While a line of a class is shed, nothing is left of the classes to be shed sooner, except the
  line just stored. */
  lemma ShedSoonerIsEmpty(b: B.Three, ev: B.Event, low: B.EventClass, high: B.EventClass)
    requires B.Wf(b) && IsLine(B.LineFor(b, ev)) && ShedSooner(low, high)
    requires ShedLines(b, ev, Slot(high)) != []
    ensures StoredLines(B.Enqueue(b, ev), Slot(low)) == if ev.cls == low then [B.LineFor(b, ev)] else []
  {
    var line := B.LineFor(b, ev);
    SlotIsPriority(ev.cls);
    hide B.Wf, IsLine, FormatLine, B.ShedUntil, Q.Append, Q.Pending, Q.LinesOf;
    assert |line| <= b.maxTotal;
    var d := B.ShedUntilSpec(b, |line|);
    var b1 := B.ShedUntil(b, |line|).0;
    assert d[Slot(high)] > 0;
    assert Q.Segs(b1.queues[Slot(low)]) == [];
    NoLines();
    if ev.cls == low {
      OneLineQueue(b1, Slot(low), line, b.nextSeq, b.segmentMax);
    }
  }

  lemma NoLines()
    ensures Q.LinesOf([]) == []
  {
  }

  lemma OneLineQueue(b: B.Three, c: nat, line: string, seq_: nat, segmentMax: nat)
    requires B.Wf(b) && c < 3 && IsLine(line) && Q.Segs(b.queues[c]) == []
    ensures Q.LinesOf(Q.Segs(Q.Append(b.queues[c], line, seq_, segmentMax))) == [line]
  {
    hide IsLine, Q.Append, Q.Wf;
    Q.AppendAddsLine(b.queues[c], line, seq_, segmentMax);
  }

  /** Over every run from any buffer an agent can open: an authentication line is shed only when no
  line of network or process activity is stored any more, and one of process activity only when none
  of network activity is, apart from the line of the event that is arriving. */
  lemma {:induction false} LowestFirst(b: B.Three, events: nat, bytes: nat, steps: seq<Step>, ev: B.Event,
                                       low: B.EventClass, high: B.EventClass)
    requires Opened(b) && Legal(Start(b, events, bytes), steps)
    requires Possible(Run(Start(b, events, bytes), steps), Arrive(ev)) && ShedSooner(low, high)
    ensures var a := Run(Start(b, events, bytes), steps);
      ShedLines(a.buf, ev, Slot(high)) != [] ==>
        StoredLines(Next(a, Arrive(ev)).buf, Slot(low)) == if ev.cls == low then [B.LineFor(a.buf, ev)] else []
  {
    hide Run, Legal, Inv, Opened, StoredLines, ShedLines;
    StartOk(b, events, bytes);
    RunKeeps(Start(b, events, bytes), steps);
    var a := Run(Start(b, events, bytes), steps);
    if ShedLines(a.buf, ev, Slot(high)) != [] {
      BufferOk(a);
      ParseInvertsFormat(a.buf.nextSeq, ev.json);
      ShedSoonerIsEmpty(a.buf, ev, low, high);
    }
  }

  lemma BufferOk(a: State)
    requires Inv(a)
    ensures B.Wf(a.buf)
  {
    hide LogOk, FlightOk, B.Wf, Tidy;
  }
}
