/** What every interleaving of the consumers keeps: no entry is lost, none is acknowledged
before it was handled or dead-lettered, and the handler is called a bounded number of times. */
module StreamSafety {
  import opened Basics
  import opened StreamGroup

  // ---- the invariant

  /** Every entry is in exactly one place: not yet delivered, pending, or acknowledged. */
  ghost predicate Partition(s: State) {
    && s.next <= |s.stream|
    && (forall id :: id in s.pending ==> s.pending[id] >= 1)
    && (forall id: nat :: id < s.next <==> id in s.pending || id in s.acked)
    && (forall id :: id in s.pending ==> id !in s.acked)
  }

  ghost predicate Settled(s: State) {
    forall id :: id in s.acked ==> id in s.handled || id in s.dead
  }

  ghost predicate OwnersOk(s: State) {
    forall t :: t in s.owners ==>
      t.id < s.next && t.delivery >= 1 && (t.id in s.pending ==> t.delivery <= s.pending[t.id])
  }

  /** A call on time belongs to the first delivery or to one below the limit; a late one needs a
  limit above the count of 1 that is read when nothing is pending. */
  predicate OnTime(cfg: Config, t: Task) {
    t.delivery == 1 || t.delivery < cfg.maxAttempts
  }

  ghost predicate StartOk(cfg: Config, s: State, start: Start) {
    && start.task in s.owners
    && if start.late then start.task.id in s.acked && !cfg.countAtClaim && cfg.maxAttempts > 1
       else OnTime(cfg, start.task)
  }

  ghost predicate StartsOk(cfg: Config, s: State) {
    && (forall i, j :: 0 <= i < j < |s.starts| ==> s.starts[i].task != s.starts[j].task)
    && (forall i :: 0 <= i < |s.starts| ==> StartOk(cfg, s, s.starts[i]))
  }

  ghost predicate Fresh(s: State, t: Task) {
    forall i :: 0 <= i < |s.starts| ==> s.starts[i].task != t
  }

  ghost predicate PhaseOk(cfg: Config, s: State, t: Task, phase: Phase) {
    match phase
    case Ready => Fresh(s, t)
    case Entering(_, late) => Fresh(s, t) && StartOk(cfg, s, Start(t, late))
    case Running(_) => true
    case Leaving(_) => t.id in s.handled
    case DeadLettering => true
    case Acking => t.id in s.handled || t.id in s.dead
  }

  ghost predicate LocalOk(cfg: Config, s: State, c: ConsumerId, local: Local) {
    && (forall t :: t in local.queue ==> t in s.owners && s.owners[t] == c)
    && Distinct(local.queue)
    && (forall i :: 0 < i < |local.queue| ==> Fresh(s, local.queue[i]))
    && (if local.queue == [] then local.phase.Ready? else PhaseOk(cfg, s, local.queue[0], local.phase))
  }

  ghost predicate LocalsOk(cfg: Config, s: State) {
    forall c :: c in s.locals ==> LocalOk(cfg, s, c, s.locals[c])
  }

  ghost predicate Inv(cfg: Config, s: State) {
    Partition(s) && Settled(s) && OwnersOk(s) && StartsOk(cfg, s) && LocalsOk(cfg, s)
  }

  // ---- every step keeps it

  /** Nothing another consumer knows about its own tasks is undone. */
  ghost predicate Grows(s: State, s': State) {
    && (forall t :: t in s.owners ==> t in s'.owners && s'.owners[t] == s.owners[t])
    && s.acked <= s'.acked && s.handled <= s'.handled && s.dead <= s'.dead
  }

  lemma OthersKept(cfg: Config, s: State, s': State, c: ConsumerId, started: seq<Start>)
    requires LocalsOk(cfg, s) && Grows(s, s') && s'.starts == s.starts + started
    requires forall i :: 0 <= i < |started| ==> started[i].task in s.owners && s.owners[started[i].task] == c
    requires forall d :: d in s'.locals && d != c ==> d in s.locals && s'.locals[d] == s.locals[d]
    ensures forall d :: d in s'.locals && d != c ==> LocalOk(cfg, s', d, s'.locals[d])
  {
    forall d | d in s'.locals && d != c
      ensures LocalOk(cfg, s', d, s'.locals[d])
    {
      OtherKept(cfg, s, s', c, started, d, s.locals[d]);
    }
  }

  lemma OtherKept(cfg: Config, s: State, s': State, c: ConsumerId, started: seq<Start>, d: ConsumerId, local: Local)
    requires LocalOk(cfg, s, d, local) && Grows(s, s') && s'.starts == s.starts + started && c != d
    requires forall i :: 0 <= i < |started| ==> started[i].task in s.owners && s.owners[started[i].task] == c
    ensures LocalOk(cfg, s', d, local)
  {
    forall i | 0 <= i < |local.queue| && Fresh(s, local.queue[i])
      ensures Fresh(s', local.queue[i])
    {
      assert local.queue[i] in local.queue;
    }
    if local.queue != [] {
      assert local.queue[0] in local.queue;
    }
  }

  lemma StartsKept(cfg: Config, s: State, s': State)
    requires StartsOk(cfg, s) && Grows(s, s') && s'.starts == s.starts
    ensures StartsOk(cfg, s')
  {
  }

  lemma {:induction false} TasksPolled(from: nat, n: nat)
    ensures forall t :: t in FirstDeliveries(from, n) <==> t.delivery == 1 && from <= t.id < from + n
    ensures Distinct(FirstDeliveries(from, n))
  {
    forall t: Task | t.delivery == 1 && from <= t.id < from + n
      ensures t in FirstDeliveries(from, n)
    {
      assert FirstDeliveries(from, n)[t.id - from] == t;
    }
  }

  /** Fresh deliveries are new to everybody. */
  lemma NewTasks(cfg: Config, s: State, s': State, c: ConsumerId, tasks: seq<Task>)
    requires StartsOk(cfg, s) && Distinct(tasks) && s'.starts == s.starts
    requires s'.owners == Assign(s.owners, tasks, c)
    requires forall t :: t in tasks ==> t !in s.owners
    ensures LocalOk(cfg, s', c, Local(tasks, Ready))
    ensures forall t :: t in s.owners ==> t in s'.owners && s'.owners[t] == s.owners[t]
  {
    forall i | 0 <= i < |tasks|
      ensures Fresh(s', tasks[i])
    {
      assert tasks[i] in tasks;
    }
  }

  /** What a new delivery has to keep: the consumer was idle and now owns new tasks. */
  lemma {:induction false} DeliverKeeps(cfg: Config, s: State, s': State, c: ConsumerId, tasks: seq<Task>)
    requires Inv(cfg, s) && Partition(s') && Settled(s') && OwnersOk(s')
    requires Distinct(tasks) && forall t :: t in tasks ==> t !in s.owners
    requires s'.owners == Assign(s.owners, tasks, c) && s'.locals == s.locals[c := Local(tasks, Ready)]
    requires s'.starts == s.starts && s'.acked == s.acked && s'.handled == s.handled && s'.dead == s.dead
    ensures Inv(cfg, s')
  {
    NewTasks(cfg, s, s', c, tasks);
    hide StartsOk, LocalOk, Partition, Settled, OwnersOk, Distinct, Assign;
    OthersKept(cfg, s, s', c, []);
    StartsKept(cfg, s, s');
  }

  lemma PollTables(s: State, c: ConsumerId, n: nat)
    requires Partition(s) && Settled(s) && OwnersOk(s) && s.next + n <= |s.stream|
    ensures var s' := Polled(s, c, n);
      && Partition(s') && Settled(s') && OwnersOk(s')
      && forall t :: t in FirstDeliveries(s.next, n) ==> t !in s.owners
  {
    PolledPending(s, c, n);
    TasksPolled(s.next, n);
    hide FirstDeliveries;
  }

  lemma {:induction false} PollKeeps(cfg: Config, s: State, c: ConsumerId, n: nat)
    requires Inv(cfg, s) && Enabled(cfg, s, Poll(c, n))
    ensures Inv(cfg, Apply(cfg, s, Poll(c, n)))
  {
    PollTables(s, c, n);
    TasksPolled(s.next, n);
    var s' := Apply(cfg, s, Poll(c, n));
    SameButLocals(s', Polled(s, c, n));
    hide Inv, Partition, Settled, OwnersOk, Assign, FirstDeliveries, Distinct;
    DeliverKeeps(cfg, s, s', c, FirstDeliveries(s.next, n));
  }

  lemma SameButLocals(s': State, s: State)
    requires Partition(s) && Settled(s) && OwnersOk(s) && s' == s.(locals := s'.locals)
    ensures Partition(s') && Settled(s') && OwnersOk(s')
  {
  }

  lemma PolledPending(s: State, c: ConsumerId, n: nat)
    requires Partition(s)
    ensures var p := Polled(s, c, n).pending;
      && (forall id :: id in s.pending ==> id in p && p[id] == s.pending[id])
      && (forall id: nat :: s.next <= id < s.next + n ==> id in p && p[id] == 1)
      && (forall id :: id in p ==> id in s.pending || s.next <= id < s.next + n)
  {
    assert forall id: nat :: s.next <= id < s.next + n ==> Within(id, s.next, n);
  }

  lemma TasksClaimed(pending: map<EntryId, nat>, ids: seq<EntryId>)
    requires forall id :: id in ids ==> id in pending
    requires Distinct(ids)
    ensures forall t :: t in Redeliveries(pending, ids) ==> t.id in ids && t.delivery == pending[t.id] + 1
    ensures Distinct(Redeliveries(pending, ids))
  {
  }

  lemma ClaimTables(s: State, c: ConsumerId, ids: seq<EntryId>)
    requires Partition(s) && Settled(s) && OwnersOk(s) && Distinct(ids) && forall id :: id in ids ==> id in s.pending
    ensures var s' := Claimed(s, c, ids);
      && Partition(s') && Settled(s') && OwnersOk(s')
      && forall t :: t in Redeliveries(s.pending, ids) ==> t !in s.owners
  {
    TasksClaimed(s.pending, ids);
    hide Redeliveries, Distinct;
  }

  lemma {:induction false} ClaimKeeps(cfg: Config, s: State, c: ConsumerId, ids: seq<EntryId>)
    requires Inv(cfg, s) && Enabled(cfg, s, Claim(c, ids))
    ensures Inv(cfg, Apply(cfg, s, Claim(c, ids)))
  {
    ClaimTables(s, c, ids);
    TasksClaimed(s.pending, ids);
    var s' := Apply(cfg, s, Claim(c, ids));
    SameButLocals(s', Claimed(s, c, ids));
    hide Inv, Partition, Settled, OwnersOk, Assign, Redeliveries, Distinct;
    DeliverKeeps(cfg, s, s', c, Redeliveries(s.pending, ids));
  }

  lemma {:induction false} RestFresh(cfg: Config, s: State, c: ConsumerId, local: Local)
    requires LocalOk(cfg, s, c, local) && local.queue != []
    ensures LocalOk(cfg, s, c, Local(local.queue[1..], Ready))
  {
  }

  lemma BeginKeeps(cfg: Config, s: State, c: ConsumerId)
    requires Inv(cfg, s) && Enabled(cfg, s, Advance(c, Begin))
    ensures Inv(cfg, Apply(cfg, s, Advance(c, Begin)))
  {
    var local := LocalOf(s, c);
    var task := local.queue[0];
    assert task in local.queue && task in s.owners && task.id < s.next;
    var now := local.(phase := BeginPhase(cfg, s, task));
    assert LocalOk(cfg, s, c, now) by { hide Distinct; }
    hide LocalOk, Inv;
    SameTables(cfg, s, With(s, c, now), c, now);
  }

  lemma StartCounted(cfg: Config, s: State, start: Start, starts: seq<Start>, s': State)
    requires StartsOk(cfg, s) && StartOk(cfg, s, start) && Fresh(s, start.task) && starts == s.starts + [start]
    requires s' == s.(starts := starts, locals := s'.locals)
    ensures StartsOk(cfg, s')
  {
  }

  lemma EnterKeeps(cfg: Config, s: State, c: ConsumerId)
    requires Inv(cfg, s) && Enabled(cfg, s, Advance(c, ContextEntered))
    ensures Inv(cfg, Apply(cfg, s, Advance(c, ContextEntered)))
  {
    var s' := Apply(cfg, s, Advance(c, ContextEntered));
    var local := LocalOf(s, c);
    assert LocalOk(cfg, s, c, local) && local.queue[0] in local.queue;
    var started := [Start(local.queue[0], local.phase.late)];
    assert LocalOk(cfg, s', c, LocalOf(s', c)) by { hide Distinct; }
    hide LocalOk, Partition, Settled, OwnersOk;
    StartCounted(cfg, s, started[0], s'.starts, s');
    hide StartsOk, StartOk;
    OthersKept(cfg, s, s', c, started);
    SameButHistory(s, s');
  }

  lemma SameButHistory(s: State, s': State)
    requires Partition(s) && Settled(s) && OwnersOk(s) && s' == s.(locals := s'.locals, starts := s'.starts)
    ensures Partition(s') && Settled(s') && OwnersOk(s')
  {
  }

  /** The other events leave the deliveries and the handler calls alone. */
  lemma QuietKeeps(cfg: Config, s: State, s': State, c: ConsumerId, local: Local)
    requires Inv(cfg, s) && Grows(s, s') && s'.starts == s.starts && s'.locals == s.locals[c := local]
    requires Partition(s') && Settled(s') && OwnersOk(s')
    requires LocalOk(cfg, s', c, local)
    ensures Inv(cfg, s')
  {
    hide LocalOk;
    StartsKept(cfg, s, s') by { hide StartsOk; }
    OthersKept(cfg, s, s', c, []);
  }

  lemma FailKeeps(cfg: Config, s: State, c: ConsumerId, event: Event)
    requires Inv(cfg, s) && Enabled(cfg, s, Advance(c, event))
    requires event.ContextFails? || event.HandlerRaises? || event.LeavingFails?
    ensures Inv(cfg, Apply(cfg, s, Advance(c, event)))
  {
    hide Distinct;
    var local := LocalOf(s, c);
    var s' := With(s, c, AfterFailure(cfg, local, local.phase.count));
    RestFresh(cfg, s, c, local);
    SameTables(cfg, s, s', c, LocalOf(s', c));
  }

  /** Only the consumer's own state changed. */
  lemma SameTables(cfg: Config, s: State, s': State, c: ConsumerId, local: Local)
    requires Inv(cfg, s) && s' == With(s, c, local) && LocalOk(cfg, s, c, local)
    ensures Inv(cfg, s')
  {
    assert LocalOk(cfg, s', c, local);
    hide LocalOk, StartsOk;
    QuietKeeps(cfg, s, s', c, local);
  }

  lemma LeaveKeeps(cfg: Config, s: State, c: ConsumerId)
    requires Inv(cfg, s) && Enabled(cfg, s, Advance(c, ContextLeft))
    ensures Inv(cfg, Apply(cfg, s, Advance(c, ContextLeft)))
  {
    var local := LocalOf(s, c).(phase := Acking);
    assert LocalOk(cfg, s, c, LocalOf(s, c));
    SameTables(cfg, s, With(s, c, local), c, local);
  }

  /** The consumer's entry was handled or dead-lettered. */
  lemma SettleKeeps(cfg: Config, s: State, c: ConsumerId, event: Event)
    requires Inv(cfg, s) && Enabled(cfg, s, Advance(c, event))
    requires event.HandlerReturns? || event.DeadLetterReturns?
    ensures Inv(cfg, Apply(cfg, s, Advance(c, event)))
  {
    hide Distinct;
    var s' := Apply(cfg, s, Advance(c, event));
    assert LocalOk(cfg, s, c, LocalOf(s, c));
    assert LocalOk(cfg, s', c, LocalOf(s', c));
    hide LocalOk, StartsOk;
    QuietKeeps(cfg, s, s', c, LocalOf(s', c));
  }

  lemma AckKeeps(cfg: Config, s: State, c: ConsumerId)
    requires Inv(cfg, s) && Enabled(cfg, s, Advance(c, Ack))
    ensures Inv(cfg, Apply(cfg, s, Advance(c, Ack)))
  {
    hide Distinct;
    var s' := Apply(cfg, s, Advance(c, Ack));
    var local := LocalOf(s, c);
    assert LocalOk(cfg, s, c, local) && local.queue[0] in local.queue;
    RestFresh(cfg, s, c, local);
    assert LocalOk(cfg, s', c, LocalOf(s', c));
    AckTables(cfg, s, local.queue[0].id);
    hide LocalOk, StartsOk;
    QuietKeeps(cfg, s, s', c, LocalOf(s', c));
  }

  lemma AckTables(cfg: Config, s: State, id: EntryId)
    requires Partition(s) && Settled(s) && OwnersOk(s) && (id in s.handled || id in s.dead)
    ensures var s' := Acknowledge(s, id);
      Partition(s') && Settled(s') && OwnersOk(s')
  {
  }

  lemma CrashKeeps(cfg: Config, s: State, c: ConsumerId)
    requires Inv(cfg, s)
    ensures Inv(cfg, Apply(cfg, s, Crash(c)))
  {
    assert LocalOk(cfg, s, c, IDLE);
    hide Inv, LocalOk;
    SameTables(cfg, s, With(s, c, IDLE), c, IDLE);
  }

  lemma PublishKeeps(cfg: Config, s: State, step: Step)
    requires Inv(cfg, s) && step.Publish?
    ensures Inv(cfg, Apply(cfg, s, step))
  {
    var s' := Apply(cfg, s, step);
    forall c | c in s'.locals
      ensures LocalOk(cfg, s', c, s'.locals[c])
    {
      OtherKept(cfg, s, s', c + 1, [], c, s.locals[c]);
    }
    hide LocalOk, StartsOk;
    StartsKept(cfg, s, s');
  }

  lemma {:induction false} ApplyKeeps(cfg: Config, s: State, step: Step)
    requires Inv(cfg, s) && Enabled(cfg, s, step)
    ensures Inv(cfg, Apply(cfg, s, step))
  {
    hide Inv, Apply;
    match step {
      case Publish(_) => PublishKeeps(cfg, s, step);
      case Poll(c, n) => PollKeeps(cfg, s, c, n);
      case Claim(c, ids) => ClaimKeeps(cfg, s, c, ids);
      case Advance(c, event) =>
        if event.Begin? {
          BeginKeeps(cfg, s, c);
        } else if event.ContextEntered? {
          EnterKeeps(cfg, s, c);
        } else if event.HandlerReturns? || event.DeadLetterReturns? {
          SettleKeeps(cfg, s, c, event);
        } else if event.ContextLeft? {
          LeaveKeeps(cfg, s, c);
        } else if event.Ack? {
          AckKeeps(cfg, s, c);
        } else {
          FailKeeps(cfg, s, c, event);
        }
      case Crash(c) => CrashKeeps(cfg, s, c);
    }
  }

  lemma {:induction false} RunKeepsFrom(cfg: Config, start: State, steps: seq<Step>)
    requires Inv(cfg, start) && Run(cfg, start, steps).Some?
    ensures Inv(cfg, Run(cfg, start, steps).value)
  {
    hide Inv, Enabled, Apply;
    if steps != [] {
      RunKeepsFrom(cfg, start, steps[..|steps| - 1]);
      ApplyKeeps(cfg, Run(cfg, start, steps[..|steps| - 1]).value, steps[|steps| - 1]);
    }
  }

  lemma {:induction false} RunKeeps(cfg: Config, steps: seq<Step>)
    requires Run(cfg, INITIAL, steps).Some?
    ensures Inv(cfg, Run(cfg, INITIAL, steps).value)
  {
    InitialOk(cfg);
    hide Inv;
    RunKeepsFrom(cfg, INITIAL, steps);
  }

  lemma InitialOk(cfg: Config)
    ensures Inv(cfg, INITIAL)
  {
  }

  // ---- what it says of every run

  /** Every published entry is in exactly one of undelivered, pending and acknowledged, and an
  acknowledged entry had a handler call return inside its tenant context, or had its
  dead-letter callback return. */
  lemma NothingIsLost(cfg: Config, steps: seq<Step>, id: EntryId)
    requires Run(cfg, INITIAL, steps).Some?
    ensures var s := Run(cfg, INITIAL, steps).value;
      && (id < |s.stream| <==> s.next <= id < |s.stream| || id in s.pending || id in s.acked)
      && (id >= s.next ==> id !in s.pending && id !in s.acked)
      && !(id in s.pending && id in s.acked)
      && (id in s.acked ==> id in s.handled || id in s.dead)
  {
    RunKeeps(cfg, steps);
  }

  /** How often the handler was called for the entry, and how often of these too late. */
  function Calls(starts: seq<Start>, id: EntryId): nat {
    if starts == [] then 0
    else Calls(starts[..|starts| - 1], id) + if starts[|starts| - 1].task.id == id then 1 else 0
  }

  function LateCalls(starts: seq<Start>, id: EntryId): nat {
    if starts == [] then 0
    else
      var last := starts[|starts| - 1];
      LateCalls(starts[..|starts| - 1], id) + if last.task.id == id && last.late then 1 else 0
  }

  /** The deliveries of the entry whose handler call was on time. */
  function TimelyDeliveries(starts: seq<Start>, id: EntryId): set<nat> {
    if starts == [] then {}
    else
      var last := starts[|starts| - 1];
      TimelyDeliveries(starts[..|starts| - 1], id)
      + if last.task.id == id && !last.late then {last.task.delivery} else {}
  }

  lemma {:induction false} TimelyIndex(starts: seq<Start>, id: EntryId, d: nat) returns (i: nat)
    requires d in TimelyDeliveries(starts, id)
    ensures i < |starts| && starts[i] == Start(Task(id, d), false)
  {
    var last := starts[|starts| - 1];
    if last == Start(Task(id, d), false) {
      i := |starts| - 1;
    } else {
      i := TimelyIndex(starts[..|starts| - 1], id, d);
    }
  }

  lemma {:induction false} CallsAreDeliveries(starts: seq<Start>, id: EntryId)
    requires forall i, j :: 0 <= i < j < |starts| ==> starts[i].task != starts[j].task
    ensures Calls(starts, id) == |TimelyDeliveries(starts, id)| + LateCalls(starts, id)
  {
    if starts != [] {
      var init, last := starts[..|starts| - 1], starts[|starts| - 1];
      CallsAreDeliveries(init, id);
      NewDelivery(init, last, id);
    }
  }

  lemma NewDelivery(init: seq<Start>, last: Start, id: EntryId)
    requires forall i :: 0 <= i < |init| ==> init[i].task != last.task
    ensures last.task.id == id ==> last.task.delivery !in TimelyDeliveries(init, id)
  {
    if last.task.id == id && last.task.delivery in TimelyDeliveries(init, id) {
      var i := TimelyIndex(init, id, last.task.delivery);
    }
  }

  /** The numbers from 1 up to `k`. */
  function UpTo(k: nat): (r: set<nat>)
    ensures |r| == k && forall n: nat :: n in r <==> 1 <= n <= k
  {
    if k == 0 then {} else UpTo(k - 1) + {k}
  }

  lemma TimelyAtMost(cfg: Config, s: State, id: EntryId)
    requires StartsOk(cfg, s) && OwnersOk(s)
    ensures |TimelyDeliveries(s.starts, id)| <= Max(1, cfg.maxAttempts - 1)
  {
    var bound := Max(1, cfg.maxAttempts - 1);
    var timely := TimelyDeliveries(s.starts, id);
    forall d | d in timely
      ensures d in UpTo(bound)
    {
      var i := TimelyIndex(s.starts, id, d);
      assert StartOk(cfg, s, s.starts[i]);
    }
    SubsetSize(timely, UpTo(bound));
  }

  lemma {:induction false} NoLateCalls(starts: seq<Start>, id: EntryId)
    requires forall i :: 0 <= i < |starts| && starts[i].task.id == id ==> !starts[i].late
    ensures LateCalls(starts, id) == 0
  {
    if starts != [] {
      assert forall i :: 0 <= i < |starts| - 1 ==> starts[..|starts| - 1][i] == starts[i];
      NoLateCalls(starts[..|starts| - 1], id);
    }
  }

  /** Whatever the consumers do, the handler is called for an entry at most
  max(1, attempts - 1) times, not counting calls whose delivery count was read after the
  entry had been acknowledged.  There is no such call while the entry is not acknowledged,
  and none at all if a claim and the reading of its count are one step or the limit is 1. */
  lemma CallsAreBounded(cfg: Config, steps: seq<Step>, id: EntryId)
    requires Run(cfg, INITIAL, steps).Some?
    ensures var s := Run(cfg, INITIAL, steps).value;
      && Calls(s.starts, id) <= Max(1, cfg.maxAttempts - 1) + LateCalls(s.starts, id)
      && (id !in s.acked || cfg.countAtClaim || cfg.maxAttempts <= 1 ==> LateCalls(s.starts, id) == 0)
  {
    var s := Run(cfg, INITIAL, steps).value;
    RunKeeps(cfg, steps);
    CallsAreDeliveries(s.starts, id);
    TimelyAtMost(cfg, s, id);
    if id !in s.acked || cfg.countAtClaim || cfg.maxAttempts <= 1 {
      forall i | 0 <= i < |s.starts| && s.starts[i].task.id == id
        ensures !s.starts[i].late
      {
        assert StartOk(cfg, s, s.starts[i]);
      }
      NoLateCalls(s.starts, id);
    }
  }

  /** Each claim of a pending entry uses up one attempt, and no other step changes how many are
  used up, except that an acknowledgement ends the count. */
  lemma ClaimsUseUpAttempts(cfg: Config, s: State, step: Step, id: EntryId)
    requires Inv(cfg, s) && Enabled(cfg, s, step) && id in s.pending
    ensures var s' := Apply(cfg, s, step);
      if step.Claim? && id in step.ids then id in s'.pending && s'.pending[id] == s.pending[id] + 1
      else if id in s'.pending then s'.pending[id] == s.pending[id]
      else id in s'.acked && step.Advance? && step.event.Ack?
  {
    if step.Poll? {
      PolledPending(s, step.c, step.n);
    }
  }
}
