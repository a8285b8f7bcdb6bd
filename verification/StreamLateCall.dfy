/** The delivery count is read in a second call after the claim.  If another consumer ends the
entry in between, nothing is pending, the count reads 1, and the handler is called once more
for an entry that was dead-lettered and acknowledged already. */
module StreamLateCall {
  import opened Basics
  import opened StreamGroup
  import opened StreamRuns
  import opened StreamSafety

  function Claims(c: ConsumerId, d: ConsumerId, id: EntryId): seq<Step> {
    [Claim(c, [id]), Claim(d, [id])]
  }

  function Resumes(c: ConsumerId): seq<Step> {
    [Advance(c, Begin), Advance(c, ContextEntered)]
  }

  /** Both claim the entry, `d` ends it, and only then `c` reads its count. */
  function LateSteps(c: ConsumerId, d: ConsumerId, id: EntryId): seq<Step> {
    Claims(c, d, id) + (Ends(d) + Resumes(c))
  }

  /** From any state in which an entry is one claim away from its limit, two idle consumers can
  end it and call the handler for it afterwards. */
  lemma LateCallPossible(cfg: Config, s: State, c: ConsumerId, d: ConsumerId, id: EntryId)
    requires Inv(cfg, s) && id in s.pending && s.stream[id] && s.pending[id] + 2 >= cfg.maxAttempts > 1
    requires c != d && LocalOf(s, c) == IDLE && LocalOf(s, d) == IDLE
    requires cfg.batch >= 1 && !cfg.countAtClaim
    ensures var r := Run(cfg, s, LateSteps(c, d, id));
      r.Some? && id in r.value.acked && Calls(r.value.starts, id) == Calls(s.starts, id) + 1
  {
    assert s.pending[id] >= 1;
    hide Run, Apply, Inv, Enabled, Calls, LocalOf, Claims, Ends, Resumes;
    BothClaim(cfg, s, c, d, id);
    var s2 := Run(cfg, s, Claims(c, d, id)).value;
    Ended(cfg, s2, d, id, Task(id, s.pending[id] + 2));
    var s5 := Run(cfg, s2, Ends(d)).value;
    Again(cfg, s5, c, id, Task(id, s.pending[id] + 1));
    RunJoins(cfg, s2, Ends(d), Resumes(c));
    RunJoins(cfg, s, Claims(c, d, id), Ends(d) + Resumes(c));
  }

  lemma BothClaim(cfg: Config, s: State, c: ConsumerId, d: ConsumerId, id: EntryId)
    requires Inv(cfg, s) && id in s.pending && c != d && cfg.batch >= 1
    requires LocalOf(s, c) == IDLE && LocalOf(s, d) == IDLE
    ensures var r := Run(cfg, s, Claims(c, d, id));
      && r.Some? && Inv(cfg, r.value) && r.value.stream == s.stream && r.value.starts == s.starts
      && id in r.value.pending && r.value.pending[id] == s.pending[id] + 2
      && LocalOf(r.value, c) == Local([Task(id, s.pending[id] + 1)], Ready)
      && LocalOf(r.value, d) == Local([Task(id, s.pending[id] + 2)], Ready)
  {
    hide Run, Apply, Inv, Enabled, LocalOf;
    ClaimOne(cfg, s, c, id);
    var s1 := Apply(cfg, s, Claim(c, [id]));
    ApplyKeeps(cfg, s, Claim(c, [id]));
    ClaimOne(cfg, s1, d, id);
    ApplyKeeps(cfg, s1, Claim(d, [id]));
    TwoSteps(cfg, s, Claim(c, [id]), Claim(d, [id]));
  }

  /** A consumer that claimed the entry before, and counts it now, calls the handler. */
  lemma Again(cfg: Config, s: State, c: ConsumerId, id: EntryId, task: Task)
    requires id < |s.stream| && s.stream[id] && id !in s.pending && cfg.maxAttempts > 1 && !cfg.countAtClaim
    requires LocalOf(s, c) == Local([task], Ready) && task.id == id && task.delivery > 1
    ensures var r := Run(cfg, s, Resumes(c));
      && r.Some? && r.value.acked == s.acked && Calls(r.value.starts, id) == Calls(s.starts, id) + 1
  {
    hide Run;
    var s6 := Apply(cfg, s, Advance(c, Begin));
    var s7 := Apply(cfg, s6, Advance(c, ContextEntered));
    TwoSteps(cfg, s, Advance(c, Begin), Advance(c, ContextEntered));
    assert s7.starts[..|s7.starts| - 1] == s.starts;
  }

  // ---- for which configurations the bound holds

  /** The entry is published and delivered; the consumer stops inside the handler. */
  function FirstSteps(): seq<Step> {
    [Publish(true), Poll(1, 1), Advance(1, Begin), Advance(1, ContextEntered), Crash(1)]
  }

  /** The entry is reclaimed; the consumer stops inside the handler again. */
  function RetrySteps(): seq<Step> {
    [Claim(1, [0]), Advance(1, Begin), Advance(1, ContextEntered), Crash(1)]
  }

  /** The first delivery and k more. */
  function ManySteps(k: nat): seq<Step> {
    if k == 0 then FirstSteps() else ManySteps(k - 1) + RetrySteps()
  }

  /** The entry was delivered and handled n times and is still pending; nobody is at work. */
  ghost predicate Waiting(s: State, n: nat) {
    && s.stream == [true] && 0 in s.pending && s.pending[0] == n && Calls(s.starts, 0) == n
    && LocalOf(s, 1) == IDLE && LocalOf(s, 2) == IDLE && LocalOf(s, 3) == IDLE
  }

  lemma FirstCall(cfg: Config)
    requires cfg.batch >= 1
    ensures var r := Run(cfg, INITIAL, FirstSteps()); r.Some? && Waiting(r.value, 1)
  {
    hide Run, Calls;
    var steps := FirstSteps();
    var s1 := Apply(cfg, INITIAL, steps[0]);
    assert s1.stream == [true];
    assert Within(0, 0, 1);
    assert FirstDeliveries(0, 1) == [Task(0, 1)];
    var s2 := Apply(cfg, s1, steps[1]);
    assert s2.pending == map[0 := 1] && LocalOf(s2, 1) == Local([Task(0, 1)], Ready);
    NoStep(cfg, INITIAL);
    OneStep(cfg, INITIAL, steps[..0], steps[0], steps[..1]);
    OneStep(cfg, INITIAL, steps[..1], steps[1], steps[..2]);
    OneStep(cfg, INITIAL, steps[..2], steps[2], steps[..3]);
    OneStep(cfg, INITIAL, steps[..3], steps[3], steps[..4]);
    OneStep(cfg, INITIAL, steps[..4], steps[4], steps);
    var r := Run(cfg, INITIAL, steps);
    assert r.value.starts == [] + [Start(Task(0, 1), false)];
    OneCall(r.value.starts);
  }

  lemma OneCall(starts: seq<Start>)
    requires starts == [Start(Task(0, 1), false)]
    ensures Calls(starts, 0) == 1
  {
    assert starts[..0] == [];
  }

  /** A consumer that claimed the entry below its limit calls the handler and stops in it. */
  lemma CallThenCrash(cfg: Config, s: State, task: Task)
    requires task.id == 0 && s.stream == [true] && 0 in s.pending && s.pending[0] == task.delivery
    requires 1 < task.delivery < cfg.maxAttempts
    requires LocalOf(s, 1) == Local([task], Ready) && LocalOf(s, 2) == IDLE && LocalOf(s, 3) == IDLE
    ensures Enabled(cfg, s, Advance(1, Begin))
    ensures var s1 := Apply(cfg, s, Advance(1, Begin));
      && Enabled(cfg, s1, Advance(1, ContextEntered))
      && var s2 := Apply(cfg, s1, Advance(1, ContextEntered));
         var s3 := Apply(cfg, s2, Crash(1));
         && s3.stream == s.stream && s3.pending == s.pending && s3.starts == s.starts + [Start(task, false)]
         && LocalOf(s3, 1) == IDLE && LocalOf(s3, 2) == IDLE && LocalOf(s3, 3) == IDLE
  {
  }

  lemma CalledAgain(cfg: Config, s: State, n: nat)
    requires Inv(cfg, s) && Waiting(s, n) && 1 <= n && n + 1 < cfg.maxAttempts && cfg.batch >= 1
    ensures var r := Run(cfg, s, RetrySteps()); r.Some? && Waiting(r.value, n + 1)
  {
    hide Run, Inv, Apply, Enabled, Calls;
    var task := Task(0, n + 1);
    var steps := RetrySteps();
    ClaimOne(cfg, s, 1, 0);
    var s1 := Apply(cfg, s, steps[0]);
    assert LocalOf(s1, 2) == LocalOf(s, 2) && LocalOf(s1, 3) == LocalOf(s, 3);
    hide LocalOf;
    CallThenCrash(cfg, s1, task);
    CanCrash(cfg, Apply(cfg, Apply(cfg, s1, steps[1]), steps[2]));
    FourSteps(cfg, s, steps);
    OneMoreCall(s.starts, task);
  }

  lemma CanCrash(cfg: Config, s: State)
    ensures Enabled(cfg, s, Crash(1))
  {
  }

  lemma FourSteps(cfg: Config, s: State, steps: seq<Step>)
    requires |steps| == 4 && Enabled(cfg, s, steps[0]) && Enabled(cfg, Apply(cfg, s, steps[0]), steps[1])
    requires Enabled(cfg, Apply(cfg, Apply(cfg, s, steps[0]), steps[1]), steps[2])
    requires Enabled(cfg, Apply(cfg, Apply(cfg, Apply(cfg, s, steps[0]), steps[1]), steps[2]), steps[3])
    ensures Run(cfg, s, steps)
      == Some(Apply(cfg, Apply(cfg, Apply(cfg, Apply(cfg, s, steps[0]), steps[1]), steps[2]), steps[3]))
  {
    hide Run, Enabled, Apply;
    NoStep(cfg, s);
    OneStep(cfg, s, steps[..0], steps[0], steps[..1]);
    OneStep(cfg, s, steps[..1], steps[1], steps[..2]);
    OneStep(cfg, s, steps[..2], steps[2], steps[..3]);
    OneStep(cfg, s, steps[..3], steps[3], steps);
  }

  lemma OneMoreCall(starts: seq<Start>, task: Task)
    requires task.id == 0
    ensures Calls(starts + [Start(task, false)], 0) == Calls(starts, 0) + 1
  {
    assert (starts + [Start(task, false)])[..|starts|] == starts;
  }

  lemma {:induction false} ManyCalls(cfg: Config, k: nat)
    requires cfg.batch >= 1 && (k > 0 ==> k + 1 < cfg.maxAttempts)
    ensures var r := Run(cfg, INITIAL, ManySteps(k)); r.Some? && Waiting(r.value, k + 1)
  {
    hide Run, Inv, Waiting, FirstSteps, RetrySteps;
    if k == 0 {
      FirstCall(cfg);
    } else {
      ManyCalls(cfg, k - 1);
      RunKeeps(cfg, ManySteps(k - 1));
      CalledAgain(cfg, Run(cfg, INITIAL, ManySteps(k - 1)).value, k);
      RunJoins(cfg, INITIAL, ManySteps(k - 1), RetrySteps());
    }
  }

  /** For every limit of two or more there is a run that calls the handler once too often: all
  attempts but one are used up by crashes, and then a late call follows. */
  lemma {:induction false} BoundCanBeExceeded(cfg: Config)
    requires !cfg.countAtClaim && cfg.maxAttempts >= 2 && cfg.batch >= 1
    ensures exists steps :: var r := Run(cfg, INITIAL, steps);
      r.Some? && Calls(r.value.starts, 0) > Max(1, cfg.maxAttempts - 1)
  {
    hide Run, Calls, LateSteps, Inv, LocalOf, ManySteps;
    var k := cfg.maxAttempts - 2;
    ManyCalls(cfg, k);
    var s := Run(cfg, INITIAL, ManySteps(k)).value;
    RunKeeps(cfg, ManySteps(k));
    LateCallPossible(cfg, s, 2, 3, 0);
    RunJoins(cfg, INITIAL, ManySteps(k), LateSteps(2, 3, 0));
    assert Run(cfg, INITIAL, ManySteps(k) + LateSteps(2, 3, 0)).Some?;
  }

  lemma {:induction false} NothingDelivered(cfg: Config, steps: seq<Step>)
    requires cfg.batch == 0 && Run(cfg, INITIAL, steps).Some?
    ensures Run(cfg, INITIAL, steps).value.next == 0
  {
    if steps != [] {
      NothingDelivered(cfg, steps[..|steps| - 1]);
      NextKept(cfg, Run(cfg, INITIAL, steps[..|steps| - 1]).value, steps[|steps| - 1]);
    }
  }

  lemma NextKept(cfg: Config, s: State, step: Step)
    requires cfg.batch == 0 && Enabled(cfg, s, step)
    ensures Apply(cfg, s, step).next == s.next
  {
  }

  /** No run calls the handler for any entry more often than the bound says. */
  ghost predicate Bounded(cfg: Config) {
    forall steps, id: EntryId :: Run(cfg, INITIAL, steps).Some? ==>
      Calls(Run(cfg, INITIAL, steps).value.starts, id) <= Max(1, cfg.maxAttempts - 1)
  }

  /** The bound holds in every run exactly when a claim and the reading of its count are one step,
  or the limit is at most one attempt, or nothing is ever read. */
  lemma {:induction false} BoundedExactlyWhen(cfg: Config)
    ensures Bounded(cfg) <==> cfg.countAtClaim || cfg.maxAttempts <= 1 || cfg.batch == 0
  {
    hide Run, Calls, Inv;
    if cfg.countAtClaim || cfg.maxAttempts <= 1 || cfg.batch == 0 {
      forall steps, id: EntryId | Run(cfg, INITIAL, steps).Some?
        ensures Calls(Run(cfg, INITIAL, steps).value.starts, id) <= Max(1, cfg.maxAttempts - 1)
      {
        CallsAreBounded(cfg, steps, id);
        if cfg.batch == 0 {
          NothingDelivered(cfg, steps);
          RunKeeps(cfg, steps);
          NoCalls(cfg, Run(cfg, INITIAL, steps).value, id);
        }
      }
    } else {
      BoundCanBeExceeded(cfg);
      var steps :| var r := Run(cfg, INITIAL, steps); r.Some? && Calls(r.value.starts, 0) > Max(1, cfg.maxAttempts - 1);
    }
  }

  lemma NoCalls(cfg: Config, s: State, id: EntryId)
    requires Inv(cfg, s) && s.next == 0
    ensures Calls(s.starts, id) == 0
  {
  }
}
