/** Several consumers of one group on one stream.  Every call a consumer makes to the server,
to the handler, to its tenant context or to the dead-letter callback is one step; the steps
of different consumers interleave freely, and a consumer may stop between any two of them. */
module StreamGroup {
  import opened Basics

  type EntryId = nat
  type ConsumerId = nat

  /** One delivery of an entry: the first is number 1, each reclaim adds one. */
  datatype Task = Task(id: EntryId, delivery: nat)

  /** What a consumer does with the first task of its list. */
  datatype Phase =
    | Ready
    | Entering(count: nat, late: bool) // about to enter the tenant context
    | Running(count: nat)              // inside the handler
    | Leaving(count: nat)              // the handler returned, the context is being left
    | DeadLettering
    | Acking

  datatype Local = Local(queue: seq<Task>, phase: Phase)

  const IDLE := Local([], Ready)

  /** A call of the handler.  It is late when the count was read after the entry had gone. */
  datatype Start = Start(task: Task, late: bool)

  /** The entries (is the envelope well-formed?), the group's position, how often each pending
  entry was delivered, what was acknowledged, handled and dead-lettered, who got each
  delivery, the handler calls, and the consumers' own state. */
  datatype State = State(stream: seq<bool>, next: nat, pending: map<EntryId, nat>, acked: set<EntryId>,
                         handled: set<EntryId>, dead: set<EntryId>, owners: map<Task, ConsumerId>,
                         starts: seq<Start>, locals: map<ConsumerId, Local>)

  const INITIAL := State([], 0, map[], {}, {}, {}, map[], [], map[])

  /** `countAtClaim` takes a claim and the reading of its delivery count as one step; the code
  makes two calls. */
  datatype Config = Config(maxAttempts: nat, batch: nat, countAtClaim: bool)

  /** What happens to the first task of a consumer's list. */
  datatype Event =
    | Begin
    | ContextEntered
    | ContextFails
    | HandlerReturns
    | HandlerRaises
    | ContextLeft
    | LeavingFails
    | DeadLetterReturns
    | Ack

  /** A crash is also what an exception of the server or of the dead-letter callback does. */
  datatype Step =
    | Publish(wellFormed: bool)
    | Poll(c: ConsumerId, n: nat)
    | Claim(c: ConsumerId, ids: seq<EntryId>)
    | Advance(c: ConsumerId, event: Event)
    | Crash(c: ConsumerId)

  function LocalOf(s: State, c: ConsumerId): Local {
    if c in s.locals then s.locals[c] else IDLE
  }

  function With(s: State, c: ConsumerId, local: Local): State {
    s.(locals := s.locals[c := local])
  }

  predicate Distinct<T(==)>(xs: seq<T>) {
    forall i, j :: 0 <= i < j < |xs| ==> xs[i] != xs[j]
  }

  predicate Expects(phase: Phase, event: Event) {
    match event
    case Begin => phase.Ready?
    case ContextEntered => phase.Entering?
    case ContextFails => phase.Entering?
    case HandlerReturns => phase.Running?
    case HandlerRaises => phase.Running?
    case ContextLeft => phase.Leaving?
    case LeavingFails => phase.Leaving?
    case DeadLetterReturns => phase.DeadLettering?
    case Ack => phase.Acking?
  }

  /** When the step can happen. */
  predicate Enabled(cfg: Config, s: State, step: Step) {
    match step
    case Publish(_) => true
    case Crash(_) => true
    case Poll(c, n) => LocalOf(s, c) == IDLE && n <= cfg.batch && s.next + n <= |s.stream|
    case Claim(c, ids) =>
      && LocalOf(s, c) == IDLE && |ids| <= cfg.batch && Distinct(ids)
      && forall id :: id in ids ==> id in s.pending
    case Advance(c, event) =>
      var local := LocalOf(s, c);
      local.queue != [] && local.queue[0].id < |s.stream| && Expects(local.phase, event)
  }

  /** The delivery count: of a first delivery it is 1; of a reclaimed entry it is read, and is
  1 again if the entry is no longer pending. */
  function CountRead(cfg: Config, s: State, task: Task): nat {
    if task.delivery == 1 then 1
    else if cfg.countAtClaim then task.delivery
    else if task.id in s.pending then s.pending[task.id] else 1
  }

  predicate IsLate(cfg: Config, s: State, task: Task) {
    task.delivery != 1 && !cfg.countAtClaim && task.id !in s.pending
  }

  /** A reclaimed entry that reached the limit, and a malformed envelope, are dead-lettered;
  everything else is handled. */
  function BeginPhase(cfg: Config, s: State, task: Task): Phase
    requires task.id < |s.stream|
  {
    var count := CountRead(cfg, s, task);
    if task.delivery != 1 && count >= cfg.maxAttempts then DeadLettering
    else if !s.stream[task.id] then DeadLettering
    else Entering(count, IsLate(cfg, s, task))
  }

  /** The handler, or its context, raised: at the limit the entry is dead-lettered, below it
  it stays pending and the consumer goes on with the next task. */
  function AfterFailure(cfg: Config, local: Local, count: nat): Local
    requires local.queue != []
  {
    if count >= cfg.maxAttempts then local.(phase := DeadLettering) else Local(local.queue[1..], Ready)
  }

  function FirstDeliveries(from: nat, n: nat): seq<Task> {
    seq(n, i requires 0 <= i < n => Task(from + i, 1))
  }

  function Redeliveries(pending: map<EntryId, nat>, ids: seq<EntryId>): seq<Task>
    requires forall id :: id in ids ==> id in pending
  {
    seq(|ids|, i requires 0 <= i < |ids| => Task(ids[i], pending[ids[i]] + 1))
  }

  function Assign(owners: map<Task, ConsumerId>, tasks: seq<Task>, c: ConsumerId): map<Task, ConsumerId> {
    owners + map t | t in tasks :: c
  }

  /** Only an acknowledgement takes an entry out of the pending ones; acknowledging one that is
  not pending does nothing. */
  function Acknowledge(s: State, id: EntryId): State {
    if id in s.pending then s.(pending := s.pending - {id}, acked := s.acked + {id}) else s
  }

  /** What the event does to the tables, */
  function Tables(s: State, local: Local, event: Event): State
    requires local.queue != [] && Expects(local.phase, event)
  {
    var task := local.queue[0];
    match event
    case ContextEntered => s.(starts := s.starts + [Start(task, local.phase.late)])
    case HandlerReturns => s.(handled := s.handled + {task.id})
    case DeadLetterReturns => s.(dead := s.dead + {task.id})
    case Ack => Acknowledge(s, task.id)
    case _ => s
  }

  /** and what to the consumer. */
  function NextLocal(cfg: Config, s: State, local: Local, event: Event): Local
    requires local.queue != [] && local.queue[0].id < |s.stream| && Expects(local.phase, event)
  {
    match event
    case Begin => local.(phase := BeginPhase(cfg, s, local.queue[0]))
    case ContextEntered => local.(phase := Running(local.phase.count))
    case ContextFails => AfterFailure(cfg, local, local.phase.count)
    case HandlerReturns => local.(phase := Leaving(local.phase.count))
    case HandlerRaises => AfterFailure(cfg, local, local.phase.count)
    case ContextLeft => local.(phase := Acking)
    case LeavingFails => AfterFailure(cfg, local, local.phase.count)
    case DeadLetterReturns => local.(phase := Acking)
    case Ack => Local(local.queue[1..], Ready)
  }

  predicate Within(id: EntryId, from: nat, n: nat) {
    from <= id < from + n
  }

  /** The next `n` entries were delivered for the first time. */
  function Polled(s: State, c: ConsumerId, n: nat): State {
    s.(next := s.next + n,
       pending := s.pending + map id: nat | s.next <= id < s.next + n && Within(id, s.next, n) :: 1,
       owners := Assign(s.owners, FirstDeliveries(s.next, n), c))
  }

  function Claimed(s: State, c: ConsumerId, ids: seq<EntryId>): State
    requires forall id :: id in ids ==> id in s.pending
  {
    s.(pending := map id | id in s.pending :: if id in ids then s.pending[id] + 1 else s.pending[id],
       owners := Assign(s.owners, Redeliveries(s.pending, ids), c))
  }

  function Apply(cfg: Config, s: State, step: Step): State
    requires Enabled(cfg, s, step)
  {
    match step
    case Publish(wellFormed) => s.(stream := s.stream + [wellFormed])
    case Poll(c, n) => With(Polled(s, c, n), c, Local(FirstDeliveries(s.next, n), Ready))
    case Claim(c, ids) => With(Claimed(s, c, ids), c, Local(Redeliveries(s.pending, ids), Ready))
    case Advance(c, event) =>
      var local := LocalOf(s, c);
      With(Tables(s, local, event), c, NextLocal(cfg, s, local, event))
    case Crash(c) => With(s, c, IDLE)
  }

  /** The state after the steps, if they can be taken in this order. */
  function Run(cfg: Config, s: State, steps: seq<Step>): Option<State> {
    if steps == [] then Some(s)
    else
      var before := Run(cfg, s, steps[..|steps| - 1]);
      if before.Some? && Enabled(cfg, before.value, steps[|steps| - 1])
      then Some(Apply(cfg, before.value, steps[|steps| - 1])) else None
  }
}
