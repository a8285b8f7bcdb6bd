/** Which entries the handler may see, and which may be given up: over every run the handler is
called for well-formed entries only, and a well-formed entry is dead-lettered only after it was
delivered as often as the limit says. */
module StreamDeadLetters {
  import opened StreamGroup
  import S = StreamSafety

  predicate WellFormed(s: State, id: EntryId) {
    id < |s.stream| && s.stream[id]
  }

  /** The entry has been delivered at least as often as the limit. */
  ghost predicate UsedUp(cfg: Config, s: State, id: EntryId) {
    exists d :: d >= cfg.maxAttempts && Task(id, d) in s.owners
  }

  ghost predicate MayBeDead(cfg: Config, s: State, id: EntryId) {
    id < |s.stream| && (!s.stream[id] || UsedUp(cfg, s, id))
  }

  ghost predicate FirstOk(cfg: Config, s: State, id: EntryId, phase: Phase) {
    match phase
    case Ready => true
    case Entering(count, _) => WellFormed(s, id) && Task(id, count) in s.owners
    case Running(count) => WellFormed(s, id) && Task(id, count) in s.owners
    case Leaving(count) => WellFormed(s, id) && Task(id, count) in s.owners
    case DeadLettering => MayBeDead(cfg, s, id)
    case Acking => true
  }

  /** The counts are those of deliveries that were made. */
  ghost predicate CountsDelivered(s: State) {
    && (forall id :: id in s.pending ==> Task(id, s.pending[id]) in s.owners)
    && (forall t :: t in s.owners ==> Task(t.id, 1) in s.owners)
  }

  ghost predicate Sound(cfg: Config, s: State) {
    && (forall start :: start in s.starts ==> WellFormed(s, start.task.id))
    && (forall id :: id in s.handled ==> WellFormed(s, id))
    && (forall id :: id in s.dead ==> MayBeDead(cfg, s, id))
    && (forall c :: c in s.locals && s.locals[c].queue != [] ==>
          FirstOk(cfg, s, s.locals[c].queue[0].id, s.locals[c].phase))
    && CountsDelivered(s)
  }

  /** Nothing of this is undone by later deliveries and entries. */
  lemma FirstStays(cfg: Config, s: State, s': State, id: EntryId, phase: Phase)
    requires FirstOk(cfg, s, id, phase) && s.stream <= s'.stream
    requires forall t :: t in s.owners ==> t in s'.owners
    ensures FirstOk(cfg, s', id, phase)
  {
  }

  lemma DeadStays(cfg: Config, s: State, s': State, id: EntryId)
    requires MayBeDead(cfg, s, id) && s.stream <= s'.stream
    requires forall t :: t in s.owners ==> t in s'.owners
    ensures MayBeDead(cfg, s', id)
  {
  }

  /** A step of consumer c that calls the handler, and decides the fate, of such entries only. */
  lemma StepStays(cfg: Config, s: State, s': State, c: ConsumerId)
    requires Sound(cfg, s) && s.stream <= s'.stream && forall t :: t in s.owners ==> t in s'.owners
    requires forall start :: start in s'.starts ==> start in s.starts || WellFormed(s, start.task.id)
    requires forall id :: id in s'.handled ==> id in s.handled || WellFormed(s, id)
    requires forall id :: id in s'.dead ==> id in s.dead || MayBeDead(cfg, s, id)
    requires CountsDelivered(s')
    requires forall d :: d in s'.locals && d != c ==> d in s.locals && s'.locals[d] == s.locals[d]
    requires c in s'.locals && s'.locals[c].queue != [] ==>
      FirstOk(cfg, s, s'.locals[c].queue[0].id, s'.locals[c].phase)
    ensures Sound(cfg, s')
  {
    hide FirstOk, MayBeDead, CountsDelivered;
    forall id | id in s'.dead ensures MayBeDead(cfg, s', id) { DeadStays(cfg, s, s', id); }
    forall d | d in s'.locals && s'.locals[d].queue != []
      ensures FirstOk(cfg, s', s'.locals[d].queue[0].id, s'.locals[d].phase)
    {
      FirstStays(cfg, s, s', s'.locals[d].queue[0].id, s'.locals[d].phase);
    }
  }

  lemma ReadyOk(cfg: Config, s: State)
    ensures forall id :: FirstOk(cfg, s, id, Ready)
  {
  }

  lemma PollCounts(s: State, c: ConsumerId, n: nat)
    requires S.Partition(s) && CountsDelivered(s)
    ensures var s' := Polled(s, c, n);
      && CountsDelivered(s')
      && s' == s.(next := s'.next, pending := s'.pending, owners := s'.owners)
      && forall t :: t in s.owners ==> t in s'.owners
  {
    S.PolledPending(s, c, n);
    S.TasksPolled(s.next, n);
    hide FirstDeliveries, S.Partition;
  }

  lemma PollStays(cfg: Config, s: State, c: ConsumerId, n: nat)
    requires S.Inv(cfg, s) && Sound(cfg, s) && Enabled(cfg, s, Poll(c, n))
    ensures Sound(cfg, Apply(cfg, s, Poll(c, n)))
  {
    PollCounts(s, c, n);
    ReadyOk(cfg, s);
    hide S.Inv, FirstOk, MayBeDead, WellFormed, FirstDeliveries, Polled;
    StepStays(cfg, s, Apply(cfg, s, Poll(c, n)), c);
  }

  lemma ClaimCounts(s: State, c: ConsumerId, ids: seq<EntryId>)
    requires CountsDelivered(s) && Distinct(ids) && forall id :: id in ids ==> id in s.pending
    ensures var s' := Claimed(s, c, ids);
      && CountsDelivered(s')
      && s' == s.(pending := s'.pending, owners := s'.owners)
      && forall t :: t in s.owners ==> t in s'.owners
  {
    S.TasksClaimed(s.pending, ids);
    var s' := Claimed(s, c, ids);
    forall id | id in ids ensures Task(id, s.pending[id] + 1) in s'.owners {
      var i :| 0 <= i < |ids| && ids[i] == id;
      assert Redeliveries(s.pending, ids)[i] == Task(id, s.pending[id] + 1);
    }
    hide Redeliveries, Distinct;
  }

  lemma ClaimStays(cfg: Config, s: State, c: ConsumerId, ids: seq<EntryId>)
    requires Sound(cfg, s) && Enabled(cfg, s, Claim(c, ids))
    ensures Sound(cfg, Apply(cfg, s, Claim(c, ids)))
  {
    ClaimCounts(s, c, ids);
    ReadyOk(cfg, s);
    hide FirstOk, MayBeDead, WellFormed, Redeliveries, Claimed, CountsDelivered;
    StepStays(cfg, s, Apply(cfg, s, Claim(c, ids)), c);
  }

  /** The count read belongs to a delivery that was made. */
  lemma CountReadDelivered(cfg: Config, s: State, t: Task)
    requires CountsDelivered(s) && t in s.owners
    ensures Task(t.id, CountRead(cfg, s, t)) in s.owners
  {
  }

  /** What one event about the first entry writes, and what the consumer is at afterwards. */
  lemma FirstAdvances(cfg: Config, s: State, local: Local, event: Event)
    requires CountsDelivered(s) && local.queue != [] && local.queue[0] in s.owners
    requires local.queue[0].id < |s.stream| && Expects(local.phase, event)
    requires FirstOk(cfg, s, local.queue[0].id, local.phase)
    ensures var id, now, s' := local.queue[0].id, NextLocal(cfg, s, local, event), Tables(s, local, event);
      && (now.queue != [] ==> FirstOk(cfg, s, now.queue[0].id, now.phase))
      && s'.stream == s.stream && s'.owners == s.owners && s'.locals == s.locals
      && (forall t :: t in s'.pending ==> t in s.pending && s'.pending[t] == s.pending[t])
      && (forall start :: start in s'.starts ==> start in s.starts || (start.task.id == id && WellFormed(s, id)))
      && (forall t :: t in s'.handled ==> t in s.handled || (t == id && WellFormed(s, id)))
      && (forall t :: t in s'.dead ==> t in s.dead || (t == id && MayBeDead(cfg, s, id)))
  {
    CountReadDelivered(cfg, s, local.queue[0]);
    hide CountsDelivered, CountRead;
  }

  lemma FirstInOwners(cfg: Config, s: State, c: ConsumerId)
    requires S.Inv(cfg, s) && LocalOf(s, c).queue != []
    ensures LocalOf(s, c).queue[0] in s.owners
  {
    assert S.LocalOk(cfg, s, c, LocalOf(s, c));
    assert LocalOf(s, c).queue[0] in LocalOf(s, c).queue;
  }

  lemma AdvanceStays(cfg: Config, s: State, c: ConsumerId, event: Event)
    requires S.Inv(cfg, s) && Sound(cfg, s) && Enabled(cfg, s, Advance(c, event))
    ensures Sound(cfg, Apply(cfg, s, Advance(c, event)))
  {
    FirstInOwners(cfg, s, c);
    FirstAdvances(cfg, s, LocalOf(s, c), event);
    hide S.Inv, Tables, NextLocal, FirstOk, MayBeDead, WellFormed;
    var s' := Apply(cfg, s, Advance(c, event));
    CountsStay(s, s');
    hide CountsDelivered;
    StepStays(cfg, s, s', c);
  }

  lemma CountsStay(s: State, s': State)
    requires CountsDelivered(s) && s'.owners == s.owners
    requires forall id :: id in s'.pending ==> id in s.pending && s'.pending[id] == s.pending[id]
    ensures CountsDelivered(s')
  {
  }

  lemma {:induction false} ApplyStays(cfg: Config, s: State, step: Step)
    requires S.Inv(cfg, s) && Sound(cfg, s) && Enabled(cfg, s, step)
    ensures Sound(cfg, Apply(cfg, s, step))
  {
    match step
    case Publish(_) => PublishStays(cfg, s, Apply(cfg, s, step));
    case Poll(c, n) => PollStays(cfg, s, c, n);
    case Claim(c, ids) => ClaimStays(cfg, s, c, ids);
    case Advance(c, event) => AdvanceStays(cfg, s, c, event);
    case Crash(c) => CrashStays(cfg, s, c);
  }

  lemma CrashStays(cfg: Config, s: State, c: ConsumerId)
    requires Sound(cfg, s)
    ensures Sound(cfg, Apply(cfg, s, Crash(c)))
  {
    CountsStay(s, Apply(cfg, s, Crash(c)));
    hide FirstOk, MayBeDead, WellFormed, CountsDelivered;
    StepStays(cfg, s, Apply(cfg, s, Crash(c)), c);
  }

  lemma PublishStays(cfg: Config, s: State, s': State)
    requires Sound(cfg, s) && s.stream <= s'.stream && s' == s.(stream := s'.stream)
    ensures Sound(cfg, s')
  {
    CountsStay(s, s');
    var c: ConsumerId := 0;
    hide FirstOk, MayBeDead, WellFormed, CountsDelivered;
    StepStays(cfg, s, s', c);
  }

  lemma {:induction false} RunIsSound(cfg: Config, steps: seq<Step>)
    requires Run(cfg, INITIAL, steps).Some?
    ensures Sound(cfg, Run(cfg, INITIAL, steps).value)
  {
    if steps != [] {
      var init := steps[..|steps| - 1];
      RunIsSound(cfg, init);
      S.RunKeeps(cfg, init);
      hide S.Inv, Sound, Apply, Enabled;
      ApplyStays(cfg, Run(cfg, INITIAL, init).value, steps[|steps| - 1]);
    }
  }

  /** Over every run: the handler is called for well-formed entries only, and returned for no
  others; and a dead-lettered entry is malformed or was delivered as often as the limit. */
  lemma HandlerSeesWellFormed(cfg: Config, steps: seq<Step>)
    requires Run(cfg, INITIAL, steps).Some?
    ensures var s := Run(cfg, INITIAL, steps).value;
      && (forall i :: 0 <= i < |s.starts| ==>
            s.starts[i].task.id < |s.stream| && s.stream[s.starts[i].task.id])
      && (forall id :: id in s.handled ==> id < |s.stream| && s.stream[id])
      && (forall id :: id in s.dead ==>
            id < |s.stream| && (!s.stream[id] || exists d :: d >= cfg.maxAttempts && Task(id, d) in s.owners))
  {
    RunIsSound(cfg, steps);
    hide Run, CountsDelivered, FirstOk;
  }
}
