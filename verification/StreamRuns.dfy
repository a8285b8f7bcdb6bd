/** Runs put together from shorter ones, and how an entry ends. */
module StreamRuns {
  import opened Basics
  import opened StreamGroup
  import opened StreamSafety

  lemma NoStep(cfg: Config, s: State)
    ensures Run(cfg, s, []) == Some(s)
  {
  }

  lemma OneStep(cfg: Config, s: State, steps: seq<Step>, step: Step, all: seq<Step>)
    requires all == steps + [step] && Run(cfg, s, steps).Some? && Enabled(cfg, Run(cfg, s, steps).value, step)
    ensures Run(cfg, s, all) == Some(Apply(cfg, Run(cfg, s, steps).value, step))
  {
    assert all[..|steps|] == steps;
  }

  lemma TwoSteps(cfg: Config, s: State, first: Step, second: Step)
    requires Enabled(cfg, s, first) && Enabled(cfg, Apply(cfg, s, first), second)
    ensures Run(cfg, s, [first, second]) == Some(Apply(cfg, Apply(cfg, s, first), second))
  {
    hide Enabled, Apply, Run;
    NoStep(cfg, s);
    OneStep(cfg, s, [], first, [first]);
    OneStep(cfg, s, [first], second, [first, second]);
  }

  lemma {:induction false} RunJoins(cfg: Config, s: State, first: seq<Step>, rest: seq<Step>)
    requires Run(cfg, s, first).Some? && Run(cfg, Run(cfg, s, first).value, rest).Some?
    ensures Run(cfg, s, first + rest) == Run(cfg, Run(cfg, s, first).value, rest)
    decreases |rest|
  {
    hide Enabled, Apply;
    if rest == [] {
      assert first + rest == first;
    } else {
      RunJoins(cfg, s, first, rest[..|rest| - 1]);
      assert (first + rest)[..|first + rest| - 1] == first + rest[..|rest| - 1];
    }
  }

  lemma ClaimOne(cfg: Config, s: State, c: ConsumerId, id: EntryId)
    requires Inv(cfg, s) && id in s.pending && LocalOf(s, c) == IDLE && cfg.batch >= 1
    ensures Enabled(cfg, s, Claim(c, [id]))
    ensures var s' := Apply(cfg, s, Claim(c, [id]));
      && LocalOf(s', c) == Local([Task(id, s.pending[id] + 1)], Ready)
      && s'.pending == s.pending[id := s.pending[id] + 1] && s'.stream == s.stream && s'.starts == s.starts
      && forall e :: e != c ==> LocalOf(s', e) == LocalOf(s, e)
  {
    assert Redeliveries(s.pending, [id]) == [Task(id, s.pending[id] + 1)];
  }

  /** The consumer dead-letters its task and acknowledges it. */
  function Ends(d: ConsumerId): seq<Step> {
    [Advance(d, Begin), Advance(d, DeadLetterReturns), Advance(d, Ack)]
  }

  /** A consumer at the limit dead-letters and acknowledges the entry. */
  lemma Ended(cfg: Config, s: State, d: ConsumerId, id: EntryId, task: Task)
    requires Inv(cfg, s) && id in s.pending && s.pending[id] >= cfg.maxAttempts
    requires (cfg.countAtClaim ==> task.delivery >= cfg.maxAttempts)
    requires LocalOf(s, d) == Local([task], Ready) && task.id == id && task.delivery > 1
    ensures var r := Run(cfg, s, Ends(d));
      && r.Some? && id in r.value.acked && id in r.value.dead && id !in r.value.pending && LocalOf(r.value, d) == IDLE
      && r.value.stream == s.stream && r.value.starts == s.starts
      && forall e :: e != d ==> LocalOf(r.value, e) == LocalOf(s, e)
  {
    hide Run;
    var s3 := Apply(cfg, s, Advance(d, Begin));
    TwoSteps(cfg, s, Advance(d, Begin), Advance(d, DeadLetterReturns));
    OneStep(cfg, s, [Advance(d, Begin), Advance(d, DeadLetterReturns)], Advance(d, Ack),
            Ends(d));
  }

  /** Once the attempts are used up, an idle consumer that claims the entry, and whose
  dead-letter callback returns, ends it without calling the handler. */
  lemma LastClaimDeadLetters(cfg: Config, s: State, c: ConsumerId, id: EntryId)
    requires Inv(cfg, s) && id in s.pending && s.pending[id] + 1 >= cfg.maxAttempts
    requires LocalOf(s, c) == IDLE && cfg.batch >= 1
    ensures var r := Run(cfg, s, [Claim(c, [id])] + Ends(c));
      && r.Some? && id in r.value.acked && id in r.value.dead && id !in r.value.pending
      && r.value.starts == s.starts && LocalOf(r.value, c) == IDLE
  {
    assert s.pending[id] >= 1;
    hide Run, Apply, Inv, Enabled, LocalOf, Ends;
    ClaimOne(cfg, s, c, id);
    ApplyKeeps(cfg, s, Claim(c, [id]));
    NoStep(cfg, s);
    OneStep(cfg, s, [], Claim(c, [id]), [Claim(c, [id])]);
    var claimed := Apply(cfg, s, Claim(c, [id]));
    Ended(cfg, claimed, c, id, Task(id, s.pending[id] + 1));
    RunJoins(cfg, s, [Claim(c, [id])], Ends(c));
  }
}
