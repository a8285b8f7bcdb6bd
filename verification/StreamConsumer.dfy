/** One consumer, call by call.  Each call is a step of the group, so what holds of every run
holds of it too; run without interruption it settles every entry it was given. */
module StreamConsumerModule {
  import opened Basics
  import opened StreamGroup
  import S = StreamSafety
  import R = StreamRuns

  /** What the tenant context and the handler do with an entry. */
  datatype Reply = ContextRaises | Raises | LeavingRaises | Returns

  /** The entry is dead-lettered and acknowledged, and the consumer goes on. */
  function DeadLettered(s: State, me: ConsumerId, id: EntryId, rest: seq<Task>): State {
    With(Acknowledge(s.(dead := s.dead + {id}), id), me, Local(rest, Ready))
  }

  function Failed(cfg: Config, s: State, me: ConsumerId, id: EntryId, rest: seq<Task>, count: nat): State {
    if count >= cfg.maxAttempts then DeadLettered(s, me, id, rest) else With(s, me, Local(rest, Ready))
  }

  /** The handler was called unless its context could not be entered, and returned or not. */
  function Called(s: State, start: Start, reply: Reply): State {
    var called := s.(starts := s.starts + [start]);
    match reply
    case ContextRaises => s
    case Raises => called
    case _ => called.(handled := s.handled + {start.task.id})
  }

  /** The group after the consumer has dealt with its first task. */
  function FirstDone(cfg: Config, s: State, me: ConsumerId, reply: EntryId -> Reply): State
    requires LocalOf(s, me).queue != [] && LocalOf(s, me).queue[0].id < |s.stream|
  {
    var queue := LocalOf(s, me).queue;
    var task, rest := queue[0], queue[1..];
    var id := task.id;
    match BeginPhase(cfg, s, task)
    case Entering(count, late) =>
      var called := Called(s, Start(task, late), reply(id));
      if reply(id).Returns? then With(Acknowledge(called, id), me, Local(rest, Ready))
      else Failed(cfg, called, me, id, rest, count)
    case _ => DeadLettered(s, me, id, rest)
  }

  /** The callback does not raise, if the first entry is dead-lettered. */
  predicate GoesOn(cfg: Config, s: State, me: ConsumerId, reply: EntryId -> Reply, deadLetter: EntryId -> bool)
    requires LocalOf(s, me).queue != [] && LocalOf(s, me).queue[0].id < |s.stream|
  {
    var task := LocalOf(s, me).queue[0];
    GivesUp(cfg, s.stream[task.id], task.delivery, CountRead(cfg, s, task), reply(task.id)) ==> deadLetter(task.id)
  }

  /** The handler is not called: the envelope is malformed, or the entry was reclaimed at the limit. */
  predicate Refused(cfg: Config, wellFormed: bool, delivery: nat, count: nat) {
    !wellFormed || (delivery != 1 && count >= cfg.maxAttempts)
  }

  /** The entry is dead-lettered. */
  predicate GivesUp(cfg: Config, wellFormed: bool, delivery: nat, count: nat, reply: Reply) {
    Refused(cfg, wellFormed, delivery, count) || (count >= cfg.maxAttempts && !reply.Returns?)
  }

  ghost predicate Known(s: State, queue: seq<Task>) {
    forall t :: t in queue ==> t.id < |s.stream|
  }

  /** The group after the consumer has dealt with all its tasks. */
  ghost function Drained(cfg: Config, s: State, me: ConsumerId, reply: EntryId -> Reply): State
    requires Known(s, LocalOf(s, me).queue)
    decreases |LocalOf(s, me).queue|
  {
    if LocalOf(s, me).queue == [] then s
    else Drained(cfg, FirstDone(cfg, s, me, reply), me, reply)
  }

  class StreamConsumer {
    const cfg: Config
    const me: ConsumerId
    /** The group as it was when the consumer began, and the steps it has taken since. */
    ghost const start: State
    ghost var trace: seq<Step>
    var group: State

    ghost predicate Valid()
      reads this
    {
      Run(cfg, start, trace) == Some(group) && S.Inv(cfg, start)
    }

    constructor (cfg: Config, me: ConsumerId, group: State)
      requires S.Inv(cfg, group)
      ensures Valid() && this.group == group && this.cfg == cfg && this.me == me && trace == []
    {
      this.cfg, this.me, this.start, this.group, this.trace := cfg, me, group, group, [];
    }

    /** One call. */
    method Take(step: Step)
      requires Valid() && Enabled(cfg, group, step)
      modifies this
      ensures Valid() && group == Apply(cfg, old(group), step) && trace == old(trace) + [step]
    {
      hide S.Inv, Enabled, Apply;
      R.OneStep(cfg, start, trace, step, trace + [step]);
      group := Apply(cfg, group, step);
      trace := trace + [step];
    }

    /** One call about the first task; `base` is the group apart from what this consumer is at. */
    method Next(event: Event, ghost base: State, ghost local: Local)
      requires Valid() && group == With(base, me, local)
      requires local.queue != [] && local.queue[0].id < |base.stream| && Expects(local.phase, event)
      modifies this
      ensures Valid() && trace == old(trace) + [Advance(me, event)]
      ensures group == With(Tables(base, local, event), me, NextLocal(cfg, base, local, event))
    {
      assert Enabled(cfg, group, Advance(me, event));
      Take(Advance(me, event));
      NormalForm(cfg, base, me, local, event);
    }

    /** `_to_dead_letter` and `_ack` */
    method ToDeadLetter(deadLetter: EntryId -> bool, ghost base: State, ghost local: Local) returns (alive: bool)
      requires Valid() && group == With(base, me, local)
      requires local.queue != [] && local.queue[0].id < |base.stream| && local.phase.DeadLettering?
      modifies this
      ensures Valid() && old(trace) <= trace
      ensures alive == deadLetter(local.queue[0].id)
      ensures if alive then group == DeadLettered(base, me, local.queue[0].id, local.queue[1..])
              else group == With(base, me, IDLE)
    {
      assert LocalOf(group, me) == local;
      alive := deadLetter(LocalOf(group, me).queue[0].id);
      if alive {
        var told := Tables(base, local, DeadLetterReturns);
        Next(DeadLetterReturns, base, local);
        Next(Ack, told, local.(phase := Acking));
      } else {
        Take(Crash(me));
        NormalCrash(base, me, local);
      }
    }

    /** Enter the context, call the handler, leave the context, and acknowledge. */
    method Handle(reply: Reply, ghost base: State, ghost local: Local) returns (raised: bool)
      requires Valid() && group == With(base, me, local)
      requires local.queue != [] && local.queue[0].id < |base.stream| && local.phase.Entering?
      modifies this
      ensures Valid() && old(trace) <= trace
      ensures raised == !reply.Returns?
      ensures var called := Called(base, Start(local.queue[0], local.phase.late), reply);
        group == if raised then With(called, me, AfterFailure(cfg, local, local.phase.count))
                 else With(Acknowledge(called, local.queue[0].id), me, Local(local.queue[1..], Ready))
    {
      hide With, Valid, Acknowledge;
      ghost var count := local.phase.count;
      raised := true;
      if reply.ContextRaises? {
        Next(ContextFails, base, local);
        return;
      }
      Next(ContextEntered, base, local);
      ghost var called := Tables(base, local, ContextEntered);
      ghost var inside := local.(phase := Running(count));
      if reply.Raises? {
        Next(HandlerRaises, called, inside);
        return;
      }
      Next(HandlerReturns, called, inside);
      called := Tables(called, inside, HandlerReturns);
      inside := local.(phase := Leaving(count));
      if reply.LeavingRaises? {
        Next(LeavingFails, called, inside);
        return;
      }
      Next(ContextLeft, called, inside);
      Next(Ack, called, local.(phase := Acking));
      raised := false;
    }

    /** The first task of the list is processed: `_process`, or the branch for the attempt limit. */
    method ProcessFirst(reply: EntryId -> Reply, deadLetter: EntryId -> bool) returns (alive: bool)
      requires Valid() && LocalOf(group, me).queue != [] && LocalOf(group, me).phase.Ready?
      requires LocalOf(group, me).queue[0].id < |group.stream|
      modifies this
      ensures Valid() && old(trace) <= trace
      ensures if alive then group == FirstDone(cfg, old(group), me, reply) else LocalOf(group, me) == IDLE
      ensures alive <==> GoesOn(cfg, old(group), me, reply, deadLetter)
    {
      ghost var base := group;
      ghost var local := LocalOf(group, me);
      assert group == With(base, me, local);
      hide With, Valid, Acknowledge, BeginPhase, Called;
      var id := LocalOf(group, me).queue[0].id;
      Next(Begin, base, local);
      local := local.(phase := BeginPhase(cfg, base, local.queue[0]));
      BeginCases(cfg, base, local.queue[0]);
      LocalIs(base, me, local);
      if LocalOf(group, me).phase.DeadLettering? {
        alive := ToDeadLetter(deadLetter, base, local);
        LocalIs(base, me, IDLE);
        return;
      }
      var raised := Handle(reply(id), base, local);
      alive := true;
      if raised {
        ghost var called := Called(base, Start(local.queue[0], local.phase.late), reply(id));
        CalledStream(base, Start(local.queue[0], local.phase.late), reply(id));
        local := AfterFailure(cfg, local, local.phase.count);
        LocalIs(called, me, local);
        if LocalOf(group, me).phase.DeadLettering? {
          alive := ToDeadLetter(deadLetter, called, local);
          LocalIs(called, me, IDLE);
        }
      }
    }

    /** The loop over the entries of one response. */
    method ProcessAll(reply: EntryId -> Reply, deadLetter: EntryId -> bool) returns (alive: bool)
      requires Valid() && LocalOf(group, me).phase.Ready? && Known(group, LocalOf(group, me).queue)
      modifies this
      ensures Valid() && old(trace) <= trace && LocalOf(group, me) == IDLE
      ensures alive ==> group == Drained(cfg, old(group), me, reply)
      ensures var queue := LocalOf(old(group), me).queue;
        Holds(old(group), queue) ==> (alive <==> AllTold(cfg, old(group), queue, reply, deadLetter))
    {
      hide Valid, FirstDone, GivesUp, GoesOn, Holds, AllTold;
      ghost var told := AllTold(cfg, group, LocalOf(group, me).queue, reply, deadLetter);
      ghost var holds := Holds(group, LocalOf(group, me).queue);
      while LocalOf(group, me).queue != []
        invariant Valid() && old(trace) <= trace
        invariant LocalOf(group, me).phase.Ready? && Known(group, LocalOf(group, me).queue)
        invariant Drained(cfg, group, me, reply) == Drained(cfg, old(group), me, reply)
        invariant holds ==>
          && Holds(group, LocalOf(group, me).queue)
          && (told <==> AllTold(cfg, group, LocalOf(group, me).queue, reply, deadLetter))
        decreases |LocalOf(group, me).queue|
      {
        FirstDoneLocal(cfg, group, me, reply);
        if holds {
          FirstLeaves(cfg, group, me, reply, deadLetter);
        }
        alive := ProcessFirst(reply, deadLetter);
        if !alive {
          return;
        }
      }
      NothingToTell(cfg, group, reply, deadLetter);
      alive := true;
    }

    /** `poll_once`: the server hands over the next `n` entries. */
    method PollOnce(n: nat, reply: EntryId -> Reply, deadLetter: EntryId -> bool) returns (processed: nat, alive: bool)
      requires Valid() && Enabled(cfg, group, Poll(me, n)) && S.Inv(cfg, group)
      modifies this
      ensures Valid() && old(trace) <= trace && LocalOf(group, me) == IDLE
      ensures alive ==> processed == n && group.next == old(group.next) + n
      ensures alive ==> forall id: nat ::
        if old(group.next) <= id < old(group.next) + n then Settles(cfg, old(group), group, id, 1, reply(id))
        else Untouched(old(group), group, id)
      ensures alive <==> forall id: nat :: old(group.next) <= id < old(group.next) + n ==>
        GivesUp(cfg, old(group).stream[id], 1, 1, reply(id)) ==> deadLetter(id)
    {
      ghost var polled := Apply(cfg, group, Poll(me, n));
      PolledQueue(cfg, group, me, n);
      hide GivesUp, Settles, Untouched, FirstDeliveries, Holds, AllTold, Drained;
      Take(Poll(me, n));
      ToldPolled(cfg, polled, old(group).next, n, reply, deadLetter);
      alive := ProcessAll(reply, deadLetter);
      processed := n;
      if alive {
        DrainSettles(cfg, polled, me, reply);
        assert group.next == polled.next;
        EachPolled(cfg, old(group), me, n, reply, group);
      }
    }

    /** `claim_stuck_once`: the server reassigns the idle entries `ids`. */
    method ClaimStuckOnce(ids: seq<EntryId>, reply: EntryId -> Reply, deadLetter: EntryId -> bool)
      returns (processed: nat, alive: bool)
      requires Valid() && Enabled(cfg, group, Claim(me, ids)) && S.Inv(cfg, group)
      modifies this
      ensures Valid() && old(trace) <= trace && LocalOf(group, me) == IDLE
      ensures alive ==> processed == |ids| && group.next == old(group.next)
      ensures alive ==> forall id: nat ::
        if id in ids then Settles(cfg, old(group), group, id, old(group).pending[id] + 1, reply(id))
        else Untouched(old(group), group, id)
      ensures alive <==> forall id :: id in ids ==>
        var delivery, wellFormed := old(group).pending[id] + 1, id < |old(group).stream| && old(group).stream[id];
        GivesUp(cfg, wellFormed, delivery, delivery, reply(id)) ==> deadLetter(id)
    {
      ghost var claimed := Apply(cfg, group, Claim(me, ids));
      ClaimedQueue(cfg, group, me, ids);
      PendingKnown(cfg, group, me, ids);
      hide S.Inv, GivesUp, Settles, Untouched, Redeliveries, Holds, AllTold, Drained, Enabled, Apply, With, Claimed;
      Take(Claim(me, ids));
      ToldClaimed(cfg, old(group), claimed, ids, reply, deadLetter);
      alive := ProcessAll(reply, deadLetter);
      processed := |ids|;
      if alive {
        DrainSettles(cfg, claimed, me, reply);
        EachClaimed(cfg, old(group), me, ids, reply, group);
      }
    }
  }

  /** What becomes of an entry delivered for the `delivery`th time.  A malformed one, and one
  reclaimed at the limit, never reach the handler and are dead-lettered; the handler is called
  once for any other unless its context cannot be entered.  Acknowledged are those dead-lettered
  and those whose handler and context returned; the others stay pending. */
  ghost predicate Settles(cfg: Config, before: State, after: State, id: EntryId, delivery: nat, reply: Reply) {
    && id < |after.stream| && after.stream == before.stream
    && var refused := Refused(cfg, after.stream[id], delivery, delivery);
       var dead := GivesUp(cfg, after.stream[id], delivery, delivery, reply);
       var called := !refused && !reply.ContextRaises?;
       var returned := called && !reply.Raises?;
       && (if dead || reply.Returns? then id in after.acked && id !in after.pending
           else id !in after.acked && id in after.pending && after.pending[id] == delivery)
       && (id in after.dead <==> id in before.dead || dead)
       && (id in after.handled <==> id in before.handled || returned)
       && S.Calls(after.starts, id) == S.Calls(before.starts, id) + (if called then 1 else 0)
       && (called ==> Start(Task(id, delivery), false) in after.starts)
  }

  ghost predicate Untouched(before: State, after: State, id: EntryId) {
    && (id in after.acked <==> id in before.acked) && (id in after.pending <==> id in before.pending)
    && (id in before.pending ==> after.pending[id] == before.pending[id])
    && (id in after.dead <==> id in before.dead) && (id in after.handled <==> id in before.handled)
    && S.Calls(after.starts, id) == S.Calls(before.starts, id)
  }

  /** The callback raises for none of the entries that are dead-lettered. */
  ghost predicate AllTold(cfg: Config, s: State, queue: seq<Task>, reply: EntryId -> Reply,
                          deadLetter: EntryId -> bool)
  {
    forall t :: t in queue ==>
      t.id < |s.stream| && (GivesUp(cfg, s.stream[t.id], t.delivery, t.delivery, reply(t.id)) ==> deadLetter(t.id))
  }

  /** The consumer holds each of its entries once, pending, with the count of its delivery. */
  ghost predicate Holds(s: State, queue: seq<Task>) {
    && (forall t :: t in queue ==>
          t.id < |s.stream| && t.id in s.pending && t.id !in s.acked && s.pending[t.id] == t.delivery)
    && (forall i, j :: 0 <= i < j < |queue| ==> queue[i].id != queue[j].id)
  }

  lemma FirstDoneLocal(cfg: Config, s: State, me: ConsumerId, reply: EntryId -> Reply)
    requires LocalOf(s, me).queue != [] && LocalOf(s, me).queue[0].id < |s.stream|
    ensures var s' := FirstDone(cfg, s, me, reply);
      s'.stream == s.stream && LocalOf(s', me) == Local(LocalOf(s, me).queue[1..], Ready)
  {
    CalledStream(s, Start(LocalOf(s, me).queue[0], true), reply(LocalOf(s, me).queue[0].id));
  }

  lemma CallsAfter(starts: seq<Start>, start: Start)
    ensures forall id :: S.Calls(starts + [start], id) == S.Calls(starts, id) + if start.task.id == id then 1 else 0
  {
    assert (starts + [start])[..|starts|] == starts;
  }

  /** The tables after the first task was dealt with. */
  lemma FirstTables(cfg: Config, s: State, me: ConsumerId, reply: EntryId -> Reply)
    requires LocalOf(s, me).queue != [] && Holds(s, LocalOf(s, me).queue)
    ensures var s', t := FirstDone(cfg, s, me, reply), LocalOf(s, me).queue[0];
      var refused := Refused(cfg, s.stream[t.id], t.delivery, t.delivery);
      var dead := GivesUp(cfg, s.stream[t.id], t.delivery, t.delivery, reply(t.id));
      var called := !refused && !reply(t.id).ContextRaises?;
      && s'.stream == s.stream && s'.next == s.next && LocalOf(s', me) == Local(LocalOf(s, me).queue[1..], Ready)
      && s'.starts == (if called then s.starts + [Start(t, false)] else s.starts)
      && s'.handled == s.handled + (if called && !reply(t.id).Raises? then {t.id} else {})
      && s'.dead == s.dead + (if dead then {t.id} else {})
      && s'.acked == s.acked + (if dead || reply(t.id).Returns? then {t.id} else {})
      && s'.pending == s.pending - (if dead || reply(t.id).Returns? then {t.id} else {})
  {
    var t := LocalOf(s, me).queue[0];
    assert t in LocalOf(s, me).queue;
    assert CountRead(cfg, s, t) == t.delivery;
  }

  /** Dealing with the first task settles its entry and touches no other. */
  lemma FirstSettles(cfg: Config, s: State, me: ConsumerId, reply: EntryId -> Reply)
    requires LocalOf(s, me).queue != [] && Holds(s, LocalOf(s, me).queue)
    ensures var s', t := FirstDone(cfg, s, me, reply), LocalOf(s, me).queue[0];
      && s'.next == s.next && s'.stream == s.stream
      && Settles(cfg, s, s', t.id, t.delivery, reply(t.id))
      && forall id :: id != t.id ==> Untouched(s, s', id)
  {
    var s', t := FirstDone(cfg, s, me, reply), LocalOf(s, me).queue[0];
    assert t in LocalOf(s, me).queue;
    FirstTables(cfg, s, me, reply);
    CallsAfter(s.starts, Start(t, false));
    hide FirstDone, Refused, GivesUp, S.Calls;
    assert Start(t, false) in s.starts + [Start(t, false)];
  }

  /** The rest of the list is held and told as before. */
  lemma FirstLeaves(cfg: Config, s: State, me: ConsumerId, reply: EntryId -> Reply, deadLetter: EntryId -> bool)
    requires LocalOf(s, me).queue != [] && Holds(s, LocalOf(s, me).queue)
    ensures var s', queue := FirstDone(cfg, s, me, reply), LocalOf(s, me).queue;
      && Holds(s', queue[1..]) && Known(s, queue)
      && (AllTold(cfg, s, queue, reply, deadLetter) <==>
            GoesOn(cfg, s, me, reply, deadLetter) && AllTold(cfg, s', queue[1..], reply, deadLetter))
  {
    var s', queue := FirstDone(cfg, s, me, reply), LocalOf(s, me).queue;
    FirstSettles(cfg, s, me, reply);
    hide FirstDone, GivesUp;
    assert queue[0] in queue;
    assert CountRead(cfg, s, queue[0]) == queue[0].delivery;
    assert forall id :: id != queue[0].id ==> Untouched(s, s', id);
    RestHolds(s, s', queue);
    assert forall t :: t in queue <==> t == queue[0] || t in queue[1..];
  }

  lemma NothingToTell(cfg: Config, s: State, reply: EntryId -> Reply, deadLetter: EntryId -> bool)
    ensures AllTold(cfg, s, [], reply, deadLetter)
  {
  }

  lemma RestHolds(s: State, s': State, queue: seq<Task>)
    requires queue != [] && Holds(s, queue) && s'.stream == s.stream
    requires forall id :: id != queue[0].id ==> Untouched(s, s', id)
    ensures Holds(s', queue[1..])
  {
    forall t | t in queue[1..]
      ensures t.id != queue[0].id && t in queue
    {
      var i :| 0 <= i < |queue[1..]| && queue[1..][i] == t;
      assert queue[i + 1] == t;
    }
    assert forall t :: t in queue[1..] ==> Untouched(s, s', t.id);
    hide S.Calls;
  }

  /** Without interruption a consumer settles every entry it holds, and touches no other. */
  lemma {:induction false} DrainSettles(cfg: Config, s: State, me: ConsumerId, reply: EntryId -> Reply)
    requires Holds(s, LocalOf(s, me).queue)
    ensures var s', queue := Drained(cfg, s, me, reply), LocalOf(s, me).queue;
      && s'.stream == s.stream && s'.next == s.next && s.starts <= s'.starts
      && (forall t :: t in queue ==> Settles(cfg, s, s', t.id, t.delivery, reply(t.id)))
      && (forall id :: (forall t :: t in queue ==> t.id != id) ==> Untouched(s, s', id))
    decreases |LocalOf(s, me).queue|
  {
    var queue := LocalOf(s, me).queue;
    if queue != [] {
      var s1, s' := FirstDone(cfg, s, me, reply), Drained(cfg, s, me, reply);
      assert queue[0] in queue;
      FirstDoneLocal(cfg, s, me, reply);
      FirstSettles(cfg, s, me, reply);
      FirstTables(cfg, s, me, reply);
      hide FirstDone, Settles, Untouched;
      RestHolds(s, s1, queue);
      DrainSettles(cfg, s1, me, reply);
      assert forall t :: t in queue <==> t == queue[0] || t in queue[1..];
      OthersDistinct(s, queue);
      forall t | t in queue ensures Settles(cfg, s, s', t.id, t.delivery, reply(t.id)) {
        if t == queue[0] {
          SettledStays(cfg, s, s1, s', t, reply(t.id));
        } else {
          SettlesLater(cfg, s, s1, s', t, reply(t.id));
        }
      }
      forall id | forall t :: t in queue ==> t.id != id ensures Untouched(s, s', id) {
        UntouchedTwice(s, s1, s', id);
      }
    }
  }

  lemma OthersDistinct(s: State, queue: seq<Task>)
    requires queue != [] && Holds(s, queue)
    ensures forall t :: t in queue[1..] ==> t.id != queue[0].id
  {
  }

  lemma SettledStays(cfg: Config, s: State, s1: State, s': State, t: Task, reply: Reply)
    requires Settles(cfg, s, s1, t.id, t.delivery, reply) && Untouched(s1, s', t.id)
    requires s'.stream == s1.stream && s1.starts <= s'.starts
    ensures Settles(cfg, s, s', t.id, t.delivery, reply)
  {
    hide S.Calls, Refused, GivesUp;
  }

  lemma SettlesLater(cfg: Config, s: State, s1: State, s': State, t: Task, reply: Reply)
    requires Untouched(s, s1, t.id) && Settles(cfg, s1, s', t.id, t.delivery, reply) && s1.stream == s.stream
    ensures Settles(cfg, s, s', t.id, t.delivery, reply)
  {
    hide S.Calls, Refused, GivesUp;
  }

  /** What settling an entry means does not depend on where it was before. */
  lemma SettlesFrom(cfg: Config, s: State, s1: State, s': State, id: EntryId, delivery: nat, reply: Reply)
    requires Settles(cfg, s1, s', id, delivery, reply)
    requires s1.stream == s.stream && s1.dead == s.dead && s1.handled == s.handled && s1.starts == s.starts
    ensures Settles(cfg, s, s', id, delivery, reply)
  {
  }

  lemma SameFor(s: State, s': State, id: EntryId)
    requires s'.dead == s.dead && s'.handled == s.handled && s'.starts == s.starts && s'.acked == s.acked
    requires (id in s'.pending <==> id in s.pending) && (id in s.pending ==> s'.pending[id] == s.pending[id])
    ensures Untouched(s, s', id)
  {
  }

  lemma UntouchedTwice(s: State, s1: State, s': State, id: EntryId)
    requires Untouched(s, s1, id) && Untouched(s1, s', id)
    ensures Untouched(s, s', id)
  {
    hide S.Calls;
  }

  lemma PolledQueue(cfg: Config, s: State, me: ConsumerId, n: nat)
    requires Enabled(cfg, s, Poll(me, n)) && S.Inv(cfg, s)
    ensures var s' := Apply(cfg, s, Poll(me, n));
      && LocalOf(s', me) == Local(FirstDeliveries(s.next, n), Ready)
      && Holds(s', FirstDeliveries(s.next, n)) && Known(s', FirstDeliveries(s.next, n)) && s'.stream == s.stream
  {
    S.PolledPending(s, me, n);
    S.TasksPolled(s.next, n);
  }

  /** Taking the entries changes only whether, and how often, they count as delivered. */
  lemma EachPolled(cfg: Config, s: State, me: ConsumerId, n: nat, reply: EntryId -> Reply, s': State)
    requires S.Inv(cfg, s) && s.next + n <= |s.stream|
    requires var polled := With(Polled(s, me, n), me, Local(FirstDeliveries(s.next, n), Ready));
      && (forall t :: t in FirstDeliveries(s.next, n) ==> Settles(cfg, polled, s', t.id, t.delivery, reply(t.id)))
      && (forall id :: (forall t :: t in FirstDeliveries(s.next, n) ==> t.id != id) ==> Untouched(polled, s', id))
    ensures forall id: nat ::
      if s.next <= id < s.next + n then Settles(cfg, s, s', id, 1, reply(id)) else Untouched(s, s', id)
  {
    S.TasksPolled(s.next, n);
    S.PolledPending(s, me, n);
    var polled := With(Polled(s, me, n), me, Local(FirstDeliveries(s.next, n), Ready));
    hide FirstDeliveries, S.Inv, Settles, Untouched;
    forall id: nat
      ensures if s.next <= id < s.next + n then Settles(cfg, s, s', id, 1, reply(id)) else Untouched(s, s', id)
    {
      if s.next <= id < s.next + n {
        assert Task(id, 1) in FirstDeliveries(s.next, n);
        SettlesFrom(cfg, s, polled, s', id, 1, reply(id));
      } else {
        SameFor(s, polled, id);
        UntouchedTwice(s, polled, s', id);
      }
    }
  }

  lemma ToldPolled(cfg: Config, s: State, from: nat, n: nat, reply: EntryId -> Reply, deadLetter: EntryId -> bool)
    requires from + n <= |s.stream|
    ensures AllTold(cfg, s, FirstDeliveries(from, n), reply, deadLetter) <==>
      forall id: nat :: from <= id < from + n ==> GivesUp(cfg, s.stream[id], 1, 1, reply(id)) ==> deadLetter(id)
  {
    S.TasksPolled(from, n);
    hide FirstDeliveries, GivesUp;
    if AllTold(cfg, s, FirstDeliveries(from, n), reply, deadLetter) {
      forall id: nat | from <= id < from + n && GivesUp(cfg, s.stream[id], 1, 1, reply(id))
        ensures deadLetter(id)
      {
        assert Task(id, 1) in FirstDeliveries(from, n);
      }
    }
  }

  lemma ClaimedQueue(cfg: Config, s: State, me: ConsumerId, ids: seq<EntryId>)
    requires Enabled(cfg, s, Claim(me, ids)) && S.Inv(cfg, s)
    ensures var s' := Apply(cfg, s, Claim(me, ids));
      && LocalOf(s', me) == Local(Redeliveries(s.pending, ids), Ready)
      && Holds(s', Redeliveries(s.pending, ids)) && Known(s', Redeliveries(s.pending, ids)) && s'.stream == s.stream
  {
  }

  lemma PendingKnown(cfg: Config, s: State, me: ConsumerId, ids: seq<EntryId>)
    requires S.Inv(cfg, s) && Enabled(cfg, s, Claim(me, ids))
    ensures forall id :: id in ids ==> id in s.pending && id < |s.stream|
    ensures var claimed := Apply(cfg, s, Claim(me, ids));
      && claimed == With(Claimed(s, me, ids), me, Local(Redeliveries(s.pending, ids), Ready))
      && claimed.next == s.next
  {
    hide S.StartsOk, S.LocalsOk, Redeliveries;
  }

  lemma RedeliveryOf(pending: map<EntryId, nat>, ids: seq<EntryId>)
    requires forall id :: id in ids ==> id in pending
    ensures forall id :: id in ids ==> Task(id, pending[id] + 1) in Redeliveries(pending, ids)
    ensures forall t :: t in Redeliveries(pending, ids) ==> t.id in ids && t.delivery == pending[t.id] + 1
  {
    forall id | id in ids
      ensures Task(id, pending[id] + 1) in Redeliveries(pending, ids)
    {
      var i :| 0 <= i < |ids| && ids[i] == id;
      assert Redeliveries(pending, ids)[i] == Task(id, pending[id] + 1);
    }
  }

  lemma EachClaimed(cfg: Config, s: State, me: ConsumerId, ids: seq<EntryId>, reply: EntryId -> Reply, s': State)
    requires forall id :: id in ids ==> id in s.pending
    requires var claimed := With(Claimed(s, me, ids), me, Local(Redeliveries(s.pending, ids), Ready));
      && (forall t :: t in Redeliveries(s.pending, ids) ==> Settles(cfg, claimed, s', t.id, t.delivery, reply(t.id)))
      && (forall id :: (forall t :: t in Redeliveries(s.pending, ids) ==> t.id != id) ==> Untouched(claimed, s', id))
    ensures forall id: nat ::
      if id in ids then Settles(cfg, s, s', id, s.pending[id] + 1, reply(id)) else Untouched(s, s', id)
  {
    RedeliveryOf(s.pending, ids);
    var claimed := With(Claimed(s, me, ids), me, Local(Redeliveries(s.pending, ids), Ready));
    hide Redeliveries, Settles, Untouched;
    forall id: nat
      ensures if id in ids then Settles(cfg, s, s', id, s.pending[id] + 1, reply(id)) else Untouched(s, s', id)
    {
      if id in ids {
        assert Task(id, s.pending[id] + 1) in Redeliveries(s.pending, ids);
        SettlesFrom(cfg, s, claimed, s', id, s.pending[id] + 1, reply(id));
      } else {
        SameFor(s, claimed, id);
        UntouchedTwice(s, claimed, s', id);
      }
    }
  }

  lemma ToldClaimed(cfg: Config, s: State, s1: State, ids: seq<EntryId>, reply: EntryId -> Reply,
                    deadLetter: EntryId -> bool)
    requires (forall id :: id in ids ==> id in s.pending && id < |s.stream|) && s1.stream == s.stream
    ensures AllTold(cfg, s1, Redeliveries(s.pending, ids), reply, deadLetter) <==>
      forall id :: id in ids ==>
        var delivery := s.pending[id] + 1;
        GivesUp(cfg, id < |s.stream| && s.stream[id], delivery, delivery, reply(id)) ==> deadLetter(id)
  {
    RedeliveryOf(s.pending, ids);
    hide Redeliveries, GivesUp;
  }

  lemma NormalForm(cfg: Config, base: State, me: ConsumerId, local: Local, event: Event)
    requires local.queue != [] && local.queue[0].id < |base.stream| && Expects(local.phase, event)
    requires Enabled(cfg, With(base, me, local), Advance(me, event))
    ensures Apply(cfg, With(base, me, local), Advance(me, event))
      == With(Tables(base, local, event), me, NextLocal(cfg, base, local, event))
  {
    var s := With(base, me, local);
    assert LocalOf(s, me) == local;
    var next := NextLocal(cfg, base, local, event);
    assert NextLocal(cfg, s, local, event) == next;
    assert Tables(s, local, event).locals == s.locals && Tables(base, local, event).locals == base.locals;
    assert s.locals[me := next] == base.locals[me := next];
  }

  lemma NormalCrash(base: State, me: ConsumerId, local: Local)
    ensures With(With(base, me, local), me, IDLE) == With(base, me, IDLE)
  {
    assert base.locals[me := local][me := IDLE] == base.locals[me := IDLE];
  }

  lemma LocalIs(base: State, me: ConsumerId, local: Local)
    ensures LocalOf(With(base, me, local), me) == local
  {
  }

  lemma BeginCases(cfg: Config, s: State, task: Task)
    requires task.id < |s.stream|
    ensures BeginPhase(cfg, s, task).DeadLettering? || BeginPhase(cfg, s, task).Entering?
  {
  }

  lemma CalledStream(s: State, start: Start, reply: Reply)
    ensures Called(s, start, reply).stream == s.stream
  {
  }
}
