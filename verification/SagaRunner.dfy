/** The runner of the provisioning saga.  Every statement commits on its own, and the process may
stop before any of them; it is then started again on what was persisted. */
module SagaRunnerModule {
  import opened Basics
  import opened SagaState

  /** What an attempt at a step does.  Activating the tenant is committed before the caches are
  told, so that attempt can raise afterwards. */
  datatype Attempt = Completes | Raises | RaisesAfterCommit

  type Outcomes = (Step, nat) -> Attempt

  function Attempts(db: Db, step: Step): nat {
    if step in db.rows then db.rows[step].attempts else 0
  }

  /** The attempt gets through; the first step has nothing left to do but need a tenant. */
  predicate Goes(step: Step, attempt: nat, outcomes: Outcomes) {
    step.TenantRow? || outcomes(step, attempt).Completes?
  }

  /** One of the attempts that are left gets through. */
  predicate CanFinish(step: Step, from: nat, max: nat, outcomes: Outcomes) {
    exists a :: from < a <= max && Goes(step, a, outcomes)
  }

  /** The attempt activates the tenant. */
  predicate Commits(step: Step, attempt: nat, outcomes: Outcomes) {
    step.TrialExpiry? && !outcomes(step, attempt).Raises?
  }

  predicate Activates(step: Step, from: nat, to: nat, outcomes: Outcomes) {
    exists a :: from < a <= to && Commits(step, a, outcomes)
  }

  /** The saga failed, and the account's tenant does not say so. */
  predicate Unmarked(db: Db) {
    db.saga.Some? && db.saga.value.status.Aborted? && db.tenant.Some? && !db.tenant.value.ProvisioningFailed?
  }

  /** The statements executed by the attempts at a step. */
  function Spent(tenant: bool, step: Step, from: nat, max: nat, outcomes: Outcomes): nat
    decreases max - from
  {
    if from >= max then 0
    else
      (if tenant && Commits(step, from + 1, outcomes) then 2 else 1)
      + if tenant && Goes(step, from + 1, outcomes) then 0 else Spent(tenant, step, from + 1, max, outcomes)
  }

  predicate Finishes(db: Db, step: Step, max: nat, outcomes: Outcomes) {
    IsDone(db, step) || (HasTenant(db) && CanFinish(step, Attempts(db, step), max, outcomes))
  }

  /** The statements that a run executes from step `i` on, unless the process stops. */
  function Needed(db: Db, i: nat, max: nat, outcomes: Outcomes): (n: nat)
    requires i <= STEPS
    ensures n >= 1
    decreases STEPS - i
  {
    if i == STEPS then 1
    else if IsDone(db, Nth(i)) then Needed(db, i + 1, max, outcomes)
    else
      Spent(HasTenant(db), Nth(i), Attempts(db, Nth(i)), max, outcomes) + 2
      + if Finishes(db, Nth(i), max, outcomes) then Needed(db, i + 1, max, outcomes)
        else if HasTenant(db) then 2 else 1
  }

  function Count(log: seq<Step>, step: Step): nat {
    if log == [] then 0 else Count(log[..|log| - 1], step) + if log[|log| - 1] == step then 1 else 0
  }

  // ---- what the writes keep

  lemma ActivatedKeeps(db: Db)
    requires Inv(db) && HasTenant(db) && DoneUpTo(db, 5) && db.saga.value.status.Running?
    ensures Inv(db.(tenant := Some(Active)))
  {
    var e := db.(tenant := Some(Active));
    assert forall step :: IsDone(e, step) <==> IsDone(db, step);
    hide Index, IsDone;
  }

  lemma MarkedKeeps(db: Db, step: Step, row: Row)
    requires Inv(db) && db.saga.Some? && db.saga.value.status.Running?
    requires DoneUpTo(db, Index(step)) && !IsDone(db, step)
    requires row.status.Done? ==> HasTenant(db) && (step.TrialExpiry? ==> db.tenant == Some(Active))
    ensures var e := MarkStep(db, step, row);
      && Inv(e) && e.saga == db.saga && e.tenant == db.tenant
      && (forall t :: t != step ==> (IsDone(e, t) <==> IsDone(db, t)) && Attempts(e, t) == Attempts(db, t))
      && (IsDone(e, step) <==> row.status.Done? && step in db.rows)
      && (row.status.Done? ==> DoneUpTo(e, Index(step) + 1))
  {
    var e := MarkStep(db, step, row);
    assert forall t :: t != step ==> (IsDone(e, t) <==> IsDone(db, t));
    assert IsDone(e, step) <==> row.status.Done? && step in db.rows;
    assert forall t :: t != step ==> Attempts(e, t) == Attempts(db, t);
    hide IsDone, Attempts;
    SuccessorOf(step);
    hide Index;
  }

  lemma SuccessorOf(step: Step)
    ensures forall t :: Index(t) < Index(step) + 1 <==> Index(t) < Index(step) || t == step
  {
  }

  lemma CompletedKeeps(db: Db, status: SagaStatus)
    requires Inv(db) && db.saga.Some? && db.saga.value.status.Running? && !status.Running?
    requires status.Succeeded? ==> HasTenant(db) && DoneUpTo(db, STEPS)
    ensures var e := db.(saga := Some(db.saga.value.(status := status)));
      && Inv(e) && forall step :: IsDone(e, step) <==> IsDone(db, step)
  {
    var e := db.(saga := Some(db.saga.value.(status := status)));
    assert forall step :: IsDone(e, step) <==> IsDone(db, step);
    hide Index, IsDone;
  }

  lemma FailedKeeps(db: Db)
    requires Inv(db) && HasTenant(db) && db.saga.value.status.Aborted? && !IsDone(db, TrialExpiry)
    ensures var e := db.(tenant := Some(ProvisioningFailed));
      && Inv(e) && forall step :: IsDone(e, step) <==> IsDone(db, step)
  {
    var e := db.(tenant := Some(ProvisioningFailed));
    assert forall step :: IsDone(e, step) <==> IsDone(db, step);
    hide Index, IsDone;
  }

  datatype StartResult = Started | TenantExists | Stopped

  class SagaRunner {
    const maxAttempts: nat
    var db: Db
    /** How many more statements are executed before the process stops. */
    var left: nat
    /** The steps whose body was executed. */
    ghost var executed: seq<Step>

    constructor (maxAttempts: nat, db: Db, left: nat)
      ensures this.maxAttempts == maxAttempts && this.db == db && this.left == left && executed == []
    {
      this.maxAttempts, this.db, this.left, this.executed := maxAttempts, db, left, [];
    }

    method Alive() returns (alive: bool)
      modifies this`left
      ensures alive <==> old(left) > 0
      ensures left == if alive then old(left) - 1 else old(left)
    {
      alive := left > 0;
      if alive {
        left := left - 1;
      }
    }

    /** The saga's row and its steps' rows. */
    method EnsureRows() returns (alive: bool)
      modifies this`db, this`left
      ensures alive <==> old(left) >= 7
      ensures db == Ensured(old(db), Min(old(left), 7))
      ensures alive ==> left == old(left) - 7
    {
      ghost var db0, left0 := db, left;
      alive := Alive();
      if !alive {
        return;
      }
      db := InsertSaga(db);
      assert db == Ensured(db0, 1) by { assert Ensured(db0, 0) == db0; }
      hide InsertSaga, InsertRow, Nth;
      for i := 0 to STEPS
        invariant alive && left == left0 - i - 1 && db == Ensured(db0, i + 1)
      {
        alive := Alive();
        if !alive {
          return;
        }
        db := InsertRow(db, Nth(i));
      }
    }

    /** The tenant, its record in the saga, and the first step's mark. */
    method EnsureTenant(ghost db0: Db) returns (r: StartResult)
      requires db == Ensured(db0, 7) && !HasTenant(db0) && !HasTenant(db) && db.saga.Some? && db.tenant == db0.tenant
      modifies this`db, this`left
      ensures db == Ensured(db0, 7 + Min(old(left), 3))
      ensures r.Started? ==> HasTenant(db)
      ensures r.Stopped? ==> old(left) < 3
      ensures !r.Stopped? ==> db == Ensured(db0, 10)
    {
      if db.tenant.Some? {
        SameAfterRows(db0);
        var alive := Alive();
        return if alive then TenantExists else Stopped;
      }
      TenantEnsured(db0);
      hide Ensured;
      var alive := Alive();
      if !alive {
        return Stopped;
      }
      db := db.(tenant := Some(Provisioning));
      alive := Alive();
      if !alive {
        return Stopped;
      }
      db := RecordTenant(db);
      alive := Alive();
      if !alive {
        return Stopped;
      }
      db := MarkStep(db, TenantRow, Row(Done, 1));
      return Started;
    }

    /** `ensure_started` */
    method EnsureStarted() returns (r: StartResult)
      requires Inv(db)
      modifies this`db, this`left
      ensures db == Ensured(old(db), Min(old(left), 10)) && Inv(db)
      ensures r.Started? ==> HasTenant(db)
      ensures r.Stopped? ==> old(left) < 10
      ensures !r.Stopped? ==> db == Ensured(old(db), 10)
    {
      ghost var db0 := db;
      EnsuredKeeps(db0, Min(left, 10));
      RowsEnsured(db0, 7);
      hide Inv, Index;
      var alive := EnsureRows();
      if !alive {
        return Stopped;
      }
      if db.saga.value.tenant {
        SameAfterRows(db0);
        return Started;
      }
      hide Ensured;
      r := EnsureTenant(db0);
    }

    /** `_execute_step`: whether the body completes, or nothing if the process stops in it. */
    method Execute(step: Step, attempt: nat, outcomes: Outcomes) returns (ok: Option<bool>)
      requires Inv(db) && db.saga.Some? && db.saga.value.status.Running? && DoneUpTo(db, Index(step))
      modifies this
      ensures Inv(db) && db.saga == old(db.saga) && db.rows == old(db.rows)
      ensures executed == old(executed) + [step]
      ensures var commits := HasTenant(db) && Commits(step, attempt, outcomes);
        && (ok.None? <==> commits && old(left) == 0)
        && db.tenant == (if commits && ok.Some? then Some(Active) else old(db.tenant))
        && left == (if commits && ok.Some? then old(left) - 1 else old(left))
      ensures ok.Some? ==> (ok.value <==> HasTenant(db) && Goes(step, attempt, outcomes))
    {
      executed := executed + [step];
      if !db.saga.value.tenant {
        return Some(false);
      }
      if step.TenantRow? {
        return Some(true);
      }
      var outcome := outcomes(step, attempt);
      if step.TrialExpiry? && !outcome.Raises? {
        var alive := Alive();
        if !alive {
          return None;
        }
        ActivatedKeeps(db);
        db := db.(tenant := Some(Active));
      }
      ok := Some(outcome.Completes?);
    }

    /** The attempts at one step, and its mark. */
    method RunStep(step: Step, outcomes: Outcomes) returns (done: Option<bool>)
      requires Inv(db) && db.saga.Some? && db.saga.value.status.Running?
      requires DoneUpTo(db, Index(step)) && !IsDone(db, step)
      modifies this
      ensures Inv(db) && db.saga == old(db.saga)
      ensures forall t :: t != step ==>
        (IsDone(db, t) <==> IsDone(old(db), t)) && Attempts(db, t) == Attempts(old(db), t)
      ensures done == Some(false) ==> !IsDone(db, step)
      ensures !HasTenant(old(db)) ==> db.tenant == old(db.tenant)
      ensures var active := HasTenant(old(db)) && Activates(step, Attempts(old(db), step), maxAttempts, outcomes);
        done.Some? ==> db.tenant == if active then Some(Active) else old(db.tenant)
      ensures var cost := Spent(HasTenant(old(db)), step, Attempts(old(db), step), maxAttempts, outcomes) + 2;
        && (done.Some? <==> old(left) >= cost)
        && (done.Some? ==> left == old(left) - cost)
        && (done.None? ==> left == 0)
      ensures done == Some(true) ==> HasTenant(db) && DoneUpTo(db, Index(step) + 1)
      ensures done.Some? ==>
        (done.value <==> HasTenant(old(db)) && CanFinish(step, Attempts(old(db), step), maxAttempts, outcomes))
      ensures exists n: nat ::
        && executed == old(executed) + Times(step, n)
        && n + Attempts(old(db), step) <= Max(maxAttempts, Attempts(old(db), step))
        && var first, tenant := Attempts(old(db), step), HasTenant(old(db));
           var marked := old(left) + 1 >= Spent(tenant, step, first, maxAttempts, outcomes) + 2;
           StepTold(old(db), db, step, n, marked, tenant && CanFinish(step, first, maxAttempts, outcomes), maxAttempts)
    {
      hide Inv, DoneUpTo, IsDone, Index, Spent, Activates, CanFinish, Goes, Commits, Times, MarkStep, StepTold;
      ghost var db0, log, left0 := db, executed, left;
      var first := Attempts(db, step);
      var attempts := first;
      var finished := false;
      assert log == log + Times(step, 0) by { NoTimes(step, log); }
      NoAttempt(step, first, maxAttempts, outcomes);
      while attempts < maxAttempts && !finished
        invariant Inv(db) && db.saga == db0.saga && db.rows == db0.rows && DoneUpTo(db, Index(step))
        invariant first <= attempts <= Max(maxAttempts, first)
        invariant executed == log + Times(step, attempts - first)
        invariant left + Spent(HasTenant(db0), step, first, maxAttempts, outcomes)
          == left0 + if finished then 0 else Spent(HasTenant(db0), step, attempts, maxAttempts, outcomes)
        invariant db.tenant ==
          if HasTenant(db0) && Activates(step, first, attempts, outcomes) then Some(Active) else db0.tenant
        invariant finished ==>
          && HasTenant(db) && CanFinish(step, first, maxAttempts, outcomes)
          && (Activates(step, first, maxAttempts, outcomes) <==> Activates(step, first, attempts, outcomes))
          && (step.TrialExpiry? ==> Activates(step, first, attempts, outcomes))
        invariant !finished ==> !(HasTenant(db0) && CanFinish(step, first, attempts, outcomes))
        decreases maxAttempts - attempts, !finished
      {
        NextAttempt(HasTenant(db0), step, first, attempts, maxAttempts, outcomes);
        var alive := Alive();
        if !alive {
          SameRowsSameDone(db0, db);
          NotTold(db0, db, step, attempts - first, maxAttempts);
          return None;
        }
        attempts := attempts + 1;
        OneMore(step, log, attempts - first - 1);
        var ok := Execute(step, attempts, outcomes);
        SameRowsSameDone(db0, db);
        if ok.None? {
          NotTold(db0, db, step, attempts - first, maxAttempts);
          return None;
        }
        finished := ok.value;
      }
      SameRowsSameDone(db0, db);
      var alive := Alive();
      if !alive {
        NotTold(db0, db, step, attempts - first, maxAttempts);
        return None;
      }
      var row := Row(if finished then Done else Status.Failed, attempts);
      MarkedKeeps(db, step, row);
      Told(db0, db, step, row, attempts - first, maxAttempts);
      db := MarkStep(db, step, row);
      alive := Alive();
      if !alive {
        return None;
      }
      done := Some(finished);
    }

    /** `_fail_terminally`, as far as the tables go. */
    method FailTerminally(ghost step: Step) returns (alive: bool)
      requires Inv(db) && db.saga.Some? && db.saga.value.status.Running? && !IsDone(db, step)
      modifies this`db, this`left
      ensures Inv(db) && forall t :: IsDone(db, t) <==> IsDone(old(db), t)
      ensures var needed := if HasTenant(old(db)) then 2 else 1;
        && (alive <==> old(left) >= needed)
        && left == (if alive then old(left) - needed else 0)
      ensures db == old(db).(
        saga := if old(left) == 0 then old(db.saga) else Some(old(db.saga.value).(status := Aborted)),
        tenant := if HasTenant(old(db)) && old(left) >= 2 then Some(ProvisioningFailed) else old(db.tenant))
      ensures Unmarked(db) <==> old(db.tenant).Some? && old(left) >= 1 && !(HasTenant(old(db)) && old(left) >= 2)
    {
      NotLast(db, step);
      NotYetMarked(db);
      alive := Alive();
      if !alive {
        return;
      }
      CompletedKeeps(db, Aborted);
      hide Inv, IsDone;
      db := db.(saga := Some(db.saga.value.(status := Aborted)));
      if db.saga.value.tenant {
        alive := Alive();
        if alive {
          FailedKeeps(db);
          db := db.(tenant := Some(ProvisioningFailed));
        }
      }
    }

    /** `run`: drives the saga to its end, unless the process stops before. */
    method Run(outcomes: Outcomes) returns (r: RunResult)
      requires Inv(db)
      modifies this
      ensures Inv(db)
      ensures r.UnknownSaga? <==> old(db.saga).None?
      ensures r.UnknownSaga? || Terminal(old(db)) ==> db == old(db) && executed == old(executed)
      ensures Terminal(old(db)) ==> r == Ended(old(db.saga.value.status))
      ensures r.Ended? ==> Terminal(db) && db.saga.value.status == r.status
      ensures r.Ended? && !Terminal(old(db)) ==> (r.status.Succeeded? <==> Completable(old(db), maxAttempts, outcomes))
      ensures !HasTenant(old(db)) ==> db.tenant == old(db.tenant)
      ensures r == Ended(Aborted) && !Terminal(old(db)) && HasTenant(db) ==> db.tenant == Some(ProvisioningFailed)
      ensures old(db.saga).Some? && !Terminal(old(db)) ==>
        && (r.ProcessStopped? <==> old(left) < Needed(old(db), 0, maxAttempts, outcomes))
        && db.saga.Some? && (HasTenant(db) <==> HasTenant(old(db)))
      ensures Unmarked(db) <==> Unmarked(old(db)) || EndsUnmarked(old(db), old(left), maxAttempts, outcomes)
      ensures EndsUnmarked(old(db), old(left), maxAttempts, outcomes) ==>
        db.tenant == if ActivatesLast(old(db), maxAttempts, outcomes) then Some(Active) else old(db.tenant)
      ensures exists run ::
        executed == old(executed) + run && RunTold(old(db), db, maxAttempts, run, r.ProcessStopped?)
    {
      hide Inv, IsDone, DoneUpTo, Index, Nth, CanFinish, Count, Attempts, StepTold, Halfway, RunTold;
      hide Needed, Finishes, Completable, Activates, ActivatesLast, Spent;
      ghost var db0, run: seq<Step> := db, [];
      NothingRun(db, maxAttempts, outcomes);
      assert executed == old(executed) + run;
      if db.saga.None? {
        return UnknownSaga;
      }
      if !db.saga.value.status.Running? {
        return Ended(db.saga.value.status);
      }
      NotYetMarked(db);
      for i := 0 to STEPS
        invariant Inv(db) && db.saga == db0.saga && Halfway(db0, db, i, run, maxAttempts, outcomes)
        invariant left + Needed(db0, 0, maxAttempts, outcomes) == old(left) + Needed(db0, i, maxAttempts, outcomes)
        invariant i > 0 ==> HasTenant(db0)
        invariant i < STEPS ==> db.tenant == db0.tenant
        invariant executed == old(executed) + run
      {
        var step := Nth(i);
        IndexNth(i);
        if step in db.rows && db.rows[step].status.Done? {
          NextDone(db0, db, i, run, maxAttempts, outcomes);
          TenantOfDone(db, step);
          continue;
        }
        label Before:
        NextOpen(db0, db, i, run, maxAttempts, outcomes);
        var done := RunStep(step, outcomes);
        ghost var first, tenant := Attempts(db0, step), HasTenant(db0);
        ghost var marked := old@Before(left) + 1 >= Spent(tenant, step, first, maxAttempts, outcomes) + 2;
        ghost var finishes := tenant && CanFinish(step, first, maxAttempts, outcomes);
        ghost var n: nat :| executed == old@Before(executed) + Times(step, n)
          && n + first <= Max(maxAttempts, first)
          && StepTold(old@Before(db), db, step, n, marked, finishes, maxAttempts);
        NextRun(db0, old@Before(db), db, i, run, n, marked, maxAttempts, outcomes);
        assert executed == old(executed) + (run + Times(step, n));
        run := run + Times(step, n);
        if done.None? {
          return ProcessStopped;
        }
        if !done.value {
          StepFails(db0, i, maxAttempts, outcomes);
          label Failing:
          var alive := FailTerminally(step);
          SameTold(db0, old@Failing(db), db, maxAttempts, run);
          return if alive then Ended(Aborted) else ProcessStopped;
        }
      }
      AllDone(db0, db, run, maxAttempts, outcomes);
      var alive := Alive();
      if !alive {
        return ProcessStopped;
      }
      TenantOfDone(db, TrialExpiry) by { LastDone(db); }
      CompletedKeeps(db, Succeeded);
      SameTold(db0, db, db.(saga := Some(db.saga.value.(status := Succeeded))), maxAttempts, run);
      db := db.(saga := Some(db.saga.value.(status := Succeeded)));
      r := Ended(Succeeded);
    }
  }

  lemma NoTimes(step: Step, log: seq<Step>)
    ensures log + Times(step, 0) == log
  {
  }

  lemma NoAttempt(step: Step, from: nat, max: nat, outcomes: Outcomes)
    ensures forall to: nat | to <= from :: !CanFinish(step, from, to, outcomes) && !Activates(step, from, to, outcomes)
    ensures forall tenant, a: nat :: a >= max ==> Spent(tenant, step, a, max, outcomes) == 0
  {
  }

  /** What the attempt after the first `a` adds; if it gets through, it is the last. */
  lemma NextAttempt(tenant: bool, step: Step, first: nat, a: nat, max: nat, outcomes: Outcomes)
    requires first <= a < max
    ensures Spent(tenant, step, a, max, outcomes)
      == (if tenant && Commits(step, a + 1, outcomes) then 2 else 1)
         + if tenant && Goes(step, a + 1, outcomes) then 0 else Spent(tenant, step, a + 1, max, outcomes)
    ensures var activates, finishes := Activates(step, first, a + 1, outcomes), CanFinish(step, first, a + 1, outcomes);
      && (activates <==> Activates(step, first, a, outcomes) || Commits(step, a + 1, outcomes))
      && (finishes <==> CanFinish(step, first, a, outcomes) || Goes(step, a + 1, outcomes))
      && (Goes(step, a + 1, outcomes) ==>
            && CanFinish(step, first, max, outcomes)
            && (Activates(step, first, max, outcomes) <==> activates)
            && (step.TrialExpiry? ==> activates))
  {
    assert Goes(step, a + 1, outcomes) && step.TrialExpiry? ==> Commits(step, a + 1, outcomes);
  }

  /** What became of a step's row when the step was executed n times: its mark tells the outcome and
  counts all attempts, and without the mark the row is what it was.  No other row changes, and a
  step is marked failed only when its attempts are used up. */
  ghost predicate StepTold(before: Db, after: Db, step: Step, n: nat, marked: bool, finished: bool, max: nat) {
    if marked && step in before.rows then
      && after.rows == before.rows[
           step := Row(if finished then Done else Status.Failed, before.rows[step].attempts + n)]
      && (!finished ==> before.rows[step].attempts + n >= max)
    else after.rows == before.rows
  }

  lemma NotTold(before: Db, after: Db, step: Step, n: nat, max: nat)
    requires after.rows == before.rows
    ensures forall finished :: StepTold(before, after, step, n, false, finished, max)
  {
  }

  lemma Told(before: Db, db: Db, step: Step, row: Row, n: nat, max: nat)
    requires db.rows == before.rows && row.attempts == Attempts(before, step) + n
    requires row.status.Done? || (row.status.Failed? && row.attempts >= max)
    ensures StepTold(before, MarkStep(db, step, row), step, n, true, row.status.Done?, max)
  {
  }

  datatype RunResult = Ended(status: SagaStatus) | ProcessStopped | UnknownSaga

  /** Every step is done, or one of its remaining attempts completes. */
  ghost predicate Completable(db: Db, max: nat, outcomes: Outcomes) {
    forall step :: Finishes(db, step, max, outcomes)
  }

  /** A failing run that stops before its last statement, the mark of the tenant; or one that gets
  to its end but has no tenant to mark, as the account's was not recorded. */
  ghost predicate EndsUnmarked(db: Db, left: nat, max: nat, outcomes: Outcomes) {
    && db.saga.Some? && db.saga.value.status.Running? && db.tenant.Some? && !Completable(db, max, outcomes)
    && if HasTenant(db) then left + 1 == Needed(db, 0, max, outcomes) else left >= Needed(db, 0, max, outcomes)
  }

  /** The run gets to the last step and activates the tenant there. */
  ghost predicate ActivatesLast(db: Db, max: nat, outcomes: Outcomes) {
    && (forall step :: step != TrialExpiry ==> Finishes(db, step, max, outcomes))
    && !IsDone(db, TrialExpiry) && Activates(TrialExpiry, Attempts(db, TrialExpiry), max, outcomes)
  }

  /** No step is executed more often than it has attempts left, and none that was done. */
  ghost predicate WithinAttempts(db: Db, max: nat, run: seq<Step>) {
    forall step ::
      && Count(run, step) + Attempts(db, step) <= Max(max, Attempts(db, step))
      && (IsDone(db, step) ==> Count(run, step) == 0)
  }

  /** The row counts the executions of the step, and is no longer pending if there were any. */
  ghost predicate Tallied(before: Db, after: Db, run: seq<Step>, step: Step) {
    step in before.rows ==>
      && step in after.rows
      && after.rows[step].attempts == before.rows[step].attempts + Count(run, step)
      && (Count(run, step) > 0 ==> !after.rows[step].status.Pending?)
  }

  ghost predicate SameRow(before: Db, after: Db, step: Step) {
    && (step in before.rows <==> step in after.rows)
    && (step in before.rows ==> after.rows[step] == before.rows[step])
  }

  /** What the rows say of a run.  All executions are counted, except that a process that stops may
  leave one step's row as it was; and a step that was marked failed has used up its attempts. */
  ghost predicate Recorded(before: Db, after: Db, max: nat, run: seq<Step>, stopped: bool) {
    && after.rows.Keys == before.rows.Keys
    && (forall t :: Tallied(before, after, run, t) || (stopped && SameRow(before, after, t)))
    && (forall t, u :: !Tallied(before, after, run, t) && !Tallied(before, after, run, u) ==> t == u)
    && (forall t :: t in after.rows && after.rows[t].status.Failed? ==>
          SameRow(before, after, t) || after.rows[t].attempts >= max)
  }

  /** The account of a run: no attempt too many, all counted, and nothing that was done undone. */
  ghost predicate RunTold(before: Db, after: Db, max: nat, run: seq<Step>, stopped: bool) {
    && WithinAttempts(before, max, run) && Recorded(before, after, max, run, stopped)
    && forall step :: IsDone(before, step) ==> IsDone(after, step)
  }

  /** A run that has got through its first `i` steps and has not touched the others. */
  ghost predicate Halfway(before: Db, db: Db, i: nat, run: seq<Step>, max: nat, outcomes: Outcomes) {
    && RunTold(before, db, max, run, false) && DoneUpTo(db, i)
    && (forall t :: Index(t) >= i ==> SameRow(before, db, t) && Count(run, t) == 0)
    && (forall t :: Index(t) < i ==> Finishes(before, t, max, outcomes))
  }

  lemma NothingRun(db: Db, max: nat, outcomes: Outcomes)
    ensures Halfway(db, db, 0, [], max, outcomes)
    ensures forall stopped :: RunTold(db, db, max, [], stopped)
  {
    NoneBefore(db);
  }

  /** Only the rows matter. */
  lemma SameTold(before: Db, db: Db, after: Db, max: nat, run: seq<Step>)
    requires RunTold(before, db, max, run, false) && after.rows == db.rows
    ensures forall stopped :: RunTold(before, after, max, run, stopped)
  {
    hide Count;
    assert forall t :: Tallied(before, after, run, t) <==> Tallied(before, db, run, t);
    assert forall t :: SameRow(before, after, t) <==> SameRow(before, db, t);
    assert forall t :: IsDone(after, t) <==> IsDone(db, t);
    hide Tallied, SameRow, IsDone, WithinAttempts;
  }

  lemma NextDone(before: Db, db: Db, i: nat, run: seq<Step>, max: nat, outcomes: Outcomes)
    requires i < STEPS && Halfway(before, db, i, run, max, outcomes)
    requires Nth(i) in db.rows && db.rows[Nth(i)].status.Done?
    ensures Halfway(before, db, i + 1, run, max, outcomes) && IsDone(db, Nth(i))
    ensures Needed(before, i, max, outcomes) == Needed(before, i + 1, max, outcomes)
  {
    IndexNth(i);
    UpToNext(i);
    assert SameRow(before, db, Nth(i));
    StepDone(before, i, max, outcomes);
    hide RunTold, SameRow, Count, Finishes, Index, Nth;
  }

  lemma NextOpen(before: Db, db: Db, i: nat, run: seq<Step>, max: nat, outcomes: Outcomes)
    requires i < STEPS && Halfway(before, db, i, run, max, outcomes)
    requires !(Nth(i) in db.rows && db.rows[Nth(i)].status.Done?)
    ensures DoneUpTo(db, i) && !IsDone(db, Nth(i))
    ensures Attempts(db, Nth(i)) == Attempts(before, Nth(i))
    ensures var tenant, first := HasTenant(before), Attempts(before, Nth(i));
      && (Finishes(before, Nth(i), max, outcomes) <==> tenant && CanFinish(Nth(i), first, max, outcomes))
      && Needed(before, i, max, outcomes) == Spent(tenant, Nth(i), first, max, outcomes) + 2
           + (if Finishes(before, Nth(i), max, outcomes) then Needed(before, i + 1, max, outcomes)
              else if tenant then 2 else 1)
    ensures i + 1 < STEPS ==> forall from, to: nat :: !Activates(Nth(i), from, to, outcomes)
    ensures forall t :: Index(t) < i ==> Finishes(before, t, max, outcomes)
  {
    IndexNth(i);
    assert SameRow(before, db, Nth(i));
    StepOpen(before, i, max, outcomes);
  }

  /** The step's executions are in the account; and if it is done, so are its first i + 1 steps. */
  lemma NextRun(before: Db, db: Db, after: Db, i: nat, run: seq<Step>, n: nat, marked: bool, max: nat,
                outcomes: Outcomes)
    requires i < STEPS && Halfway(before, db, i, run, max, outcomes) && !IsDone(db, Nth(i))
    requires n + Attempts(before, Nth(i)) <= Max(max, Attempts(before, Nth(i)))
    requires var finishes := HasTenant(before) && CanFinish(Nth(i), Attempts(before, Nth(i)), max, outcomes);
      StepTold(db, after, Nth(i), n, marked, finishes, max)
    ensures RunTold(before, after, max, run + Times(Nth(i), n), true)
    ensures marked ==> RunTold(before, after, max, run + Times(Nth(i), n), false)
    ensures marked && DoneUpTo(after, i + 1) && Finishes(before, Nth(i), max, outcomes) ==>
      Halfway(before, after, i + 1, run + Times(Nth(i), n), max, outcomes)
  {
    var step, more := Nth(i), run + Times(Nth(i), n);
    var finishes := HasTenant(before) && CanFinish(step, Attempts(before, step), max, outcomes);
    IndexNth(i);
    UpToNext(i);
    assert SameRow(before, db, step) && Count(run, step) == 0 && !IsDone(before, step);
    KeepsDone(db, after, step, n, marked, finishes, max);
    hide Nth, Count, Times, StepTold, WithinAttempts, Recorded, IsDone, CanFinish, Finishes, SameRow, Attempts;
    MoreRun(before, max, run, step, n);
    MoreRecorded(before, db, after, max, run, step, n, marked, finishes);
  }

  lemma KeepsDone(db: Db, after: Db, step: Step, n: nat, marked: bool, finished: bool, max: nat)
    requires StepTold(db, after, step, n, marked, finished, max) && !IsDone(db, step)
    ensures forall t :: IsDone(db, t) ==> IsDone(after, t)
  {
  }

  lemma OthersTold(before: Db, db: Db, after: Db, run: seq<Step>, step: Step, n: nat, marked: bool,
                   finished: bool, max: nat, t: Step)
    requires StepTold(db, after, step, n, marked, finished, max) && t != step
    ensures Tallied(before, db, run, t) <==> Tallied(before, after, run + Times(step, n), t)
    ensures SameRow(before, db, t) <==> SameRow(before, after, t)
    ensures t in db.rows <==> t in after.rows
    ensures t in after.rows ==> after.rows[t] == db.rows[t]
  {
    CountMore(run, step, n, t);
  }

  lemma OwnTold(before: Db, db: Db, after: Db, run: seq<Step>, step: Step, n: nat, marked: bool,
                finished: bool, max: nat)
    requires StepTold(db, after, step, n, marked, finished, max)
    requires SameRow(before, db, step) && Count(run, step) == 0
    ensures marked ==> Tallied(before, after, run + Times(step, n), step)
    ensures !marked ==> SameRow(before, after, step)
    ensures step in after.rows && after.rows[step].status.Failed? ==>
      SameRow(before, after, step) || after.rows[step].attempts >= max
    ensures after.rows.Keys == db.rows.Keys
  {
    CountMore(run, step, n, step);
  }

  lemma MoreRecorded(before: Db, db: Db, after: Db, max: nat, run: seq<Step>, step: Step, n: nat,
                     marked: bool, finished: bool)
    requires Recorded(before, db, max, run, false) && SameRow(before, db, step) && Count(run, step) == 0
    requires StepTold(db, after, step, n, marked, finished, max)
    ensures Recorded(before, after, max, run + Times(step, n), true)
    ensures marked ==> Recorded(before, after, max, run + Times(step, n), false)
    ensures forall t :: t != step && SameRow(before, db, t) ==> SameRow(before, after, t)
  {
    hide Tallied, SameRow, StepTold, Count, Times;
    OwnTold(before, db, after, run, step, n, marked, finished, max);
    forall t | t != step
      ensures Tallied(before, after, run + Times(step, n), t)
      ensures SameRow(before, db, t) <==> SameRow(before, after, t)
      ensures t in after.rows && after.rows[t].status.Failed? ==>
        SameRow(before, after, t) || after.rows[t].attempts >= max
    {
      OthersTold(before, db, after, run, step, n, marked, finished, max, t);
    }
  }

  lemma AllDone(before: Db, db: Db, run: seq<Step>, max: nat, outcomes: Outcomes)
    requires Halfway(before, db, STEPS, run, max, outcomes)
    ensures DoneUpTo(db, STEPS) && Completable(before, max, outcomes)
    ensures Needed(before, STEPS, max, outcomes) == 1
    ensures forall stopped :: RunTold(before, db, max, run, stopped)
  {
    AllSteps();
    NoneFails(before, max, outcomes);
    SameTold(before, db, db, max, run);
  }

  lemma {:induction false} CountMore(run: seq<Step>, step: Step, n: nat, t: Step)
    ensures Count(run + Times(step, n), t) == Count(run, t) + if t == step then n else 0
  {
    if n == 0 {
      assert run + Times(step, n) == run;
    } else {
      CountMore(run, step, n - 1, t);
      assert (run + Times(step, n))[..|run + Times(step, n)| - 1] == run + Times(step, n - 1);
    }
  }

  lemma MoreRun(db: Db, max: nat, run: seq<Step>, step: Step, n: nat)
    requires WithinAttempts(db, max, run) && Count(run, step) == 0 && !IsDone(db, step)
    requires n + Attempts(db, step) <= Max(max, Attempts(db, step))
    ensures WithinAttempts(db, max, run + Times(step, n))
    ensures forall t :: t != step ==> Count(run + Times(step, n), t) == Count(run, t)
  {
    forall t
      ensures Count(run + Times(step, n), t) == Count(run, t) + if t == step then n else 0
    {
      CountMore(run, step, n, t);
    }
  }

  lemma NotLast(db: Db, step: Step)
    requires Inv(db) && !IsDone(db, step)
    ensures !IsDone(db, TrialExpiry)
  {
  }

  lemma NotYetMarked(db: Db)
    requires Inv(db) && db.saga.Some? && db.saga.value.status.Running?
    ensures db.tenant != Some(ProvisioningFailed) && (HasTenant(db) ==> db.tenant.Some?)
  {
  }

  lemma NoneBefore(db: Db)
    ensures DoneUpTo(db, 0)
    ensures forall t :: Index(t) >= 0
  {
  }

  lemma UpToNext(i: nat)
    requires i < STEPS
    ensures forall t :: Index(t) < i + 1 <==> Index(t) < i || t == Nth(i)
    ensures forall t :: Index(t) >= i + 1 ==> t != Nth(i) && Index(t) >= i
  {
  }

  lemma StepDone(db: Db, i: nat, max: nat, outcomes: Outcomes)
    requires i < STEPS && IsDone(db, Nth(i))
    ensures Needed(db, i, max, outcomes) == Needed(db, i + 1, max, outcomes)
    ensures Finishes(db, Nth(i), max, outcomes)
  {
  }

  lemma StepOpen(db: Db, i: nat, max: nat, outcomes: Outcomes)
    requires i < STEPS && !IsDone(db, Nth(i))
    ensures var tenant, first := HasTenant(db), Attempts(db, Nth(i));
      && (Finishes(db, Nth(i), max, outcomes) <==> tenant && CanFinish(Nth(i), first, max, outcomes))
      && Needed(db, i, max, outcomes) == Spent(tenant, Nth(i), first, max, outcomes) + 2
           + (if Finishes(db, Nth(i), max, outcomes) then Needed(db, i + 1, max, outcomes)
              else if tenant then 2 else 1)
    ensures i <= Index(TrialExpiry)
    ensures i < Index(TrialExpiry) ==>
      forall from, to: nat :: !Activates(Nth(i), from, to, outcomes)
  {
    hide IsDone, CanFinish, Spent, Attempts;
    assert i < Index(TrialExpiry) ==> Nth(i) != TrialExpiry;
  }

  /** The first step that does not finish ends the run. */
  lemma StepFails(db: Db, i: nat, max: nat, outcomes: Outcomes)
    requires i < STEPS && !Finishes(db, Nth(i), max, outcomes)
    requires forall t :: Index(t) < i ==> Finishes(db, t, max, outcomes)
    ensures !Completable(db, max, outcomes)
    ensures i == 0 ==> !ActivatesLast(db, max, outcomes)
    ensures ActivatesLast(db, max, outcomes) <==> Activates(Nth(i), Attempts(db, Nth(i)), max, outcomes)
  {
    IndexNth(i);
    if Nth(i).TrialExpiry? {
      assert !IsDone(db, TrialExpiry);
      hide Finishes;
      assert forall t :: t != TrialExpiry ==> Index(t) < i;
    }
  }

  lemma {:induction false} SpentAtMost(step: Step, from: nat, max: nat, outcomes: Outcomes)
    ensures Spent(false, step, from, max, outcomes) == SaturatingSub(max, from)
    decreases max - from
  {
    if from < max {
      SpentAtMost(step, from + 1, max, outcomes);
    }
  }

  /** Without a tenant, the run ends with the attempts at the first step. */
  lemma NeededWithoutTenant(db: Db, max: nat, outcomes: Outcomes)
    requires Inv(db) && !HasTenant(db)
    ensures Needed(db, 0, max, outcomes) == SaturatingSub(max, Attempts(db, TenantRow)) + 3
    ensures !Completable(db, max, outcomes)
  {
    SpentAtMost(TenantRow, Attempts(db, TenantRow), max, outcomes);
    assert !Finishes(db, TenantRow, max, outcomes);
  }

  lemma NoneFails(db: Db, max: nat, outcomes: Outcomes)
    requires forall t :: Index(t) < STEPS ==> Finishes(db, t, max, outcomes)
    ensures Completable(db, max, outcomes)
    ensures Needed(db, STEPS, max, outcomes) == 1
  {
    hide Finishes;
  }

  lemma AllSteps()
    ensures forall t :: Index(t) < STEPS
  {
  }

  lemma TenantOfDone(db: Db, step: Step)
    requires Inv(db) && IsDone(db, step)
    ensures HasTenant(db)
  {
  }

  lemma LastDone(db: Db)
    requires DoneUpTo(db, STEPS)
    ensures IsDone(db, TrialExpiry)
  {
  }

  /** What starts and resumes the runner, and after how many statements its process stops. */
  datatype Op = Start(left: nat) | Resume(left: nat, outcomes: Outcomes)

  /** A start that inserts a tenant for a saga which has already failed. */
  predicate LateTenant(db: Db, left: nat) {
    db.saga.Some? && db.saga.value.status.Aborted? && db.tenant.None? && left >= 8
  }

  /** What leaves a failed saga's tenant without its mark: a process that stops just before
  marking it, or before recording it, or a start that comes too late. */
  ghost predicate Unmarks(db: Db, op: Op, max: nat) {
    match op
    case Start(left) => LateTenant(db, left)
    case Resume(left, outcomes) => EndsUnmarked(db, left, max, outcomes)
  }

  /** The step is done, or its attempts are used up. */
  predicate Closed(db: Db, step: Step, max: nat) {
    step in db.rows && (db.rows[step].status.Done? || db.rows[step].attempts >= max)
  }

  ghost predicate FailedAreClosed(db: Db, max: nat) {
    forall step :: step in db.rows && db.rows[step].status.Failed? ==> Closed(db, step, max)
  }

  /** What one operation did, and which steps it executed. */
  ghost predicate OpTold(before: Db, after: Db, op: Op, run: seq<Step>, max: nat) {
    match op
    case Start(left) => run == [] && after == Ensured(before, Min(left, 10))
    case Resume(left, outcomes) =>
      var running := before.saga.Some? && before.saga.value.status.Running?;
      RunTold(before, after, max, run, running && left < Needed(before, 0, max, outcomes))
  }

  /** A closed step is not executed, and stays closed; and no step is marked failed before. */
  lemma ClosedIsFinal(before: Db, after: Db, op: Op, run: seq<Step>, max: nat)
    requires OpTold(before, after, op, run, max)
    ensures forall step :: Closed(before, step, max) ==> Count(run, step) == 0 && Closed(after, step, max)
    ensures FailedAreClosed(before, max) ==> FailedAreClosed(after, max)
    ensures forall step :: IsDone(before, step) ==> IsDone(after, step)
  {
    if op.Start? {
      StartKeepsRows(before, Min(op.left, 10));
    } else {
      var running := before.saga.Some? && before.saga.value.status.Running?;
      forall step | Closed(before, step, max)
        ensures Count(run, step) == 0 && Closed(after, step, max)
      {
        RunKeepsClosed(before, after, run, running && op.left < Needed(before, 0, max, op.outcomes), step, max);
      }
    }
  }

  lemma RunKeepsClosed(before: Db, after: Db, run: seq<Step>, stopped: bool, step: Step, max: nat)
    requires RunTold(before, after, max, run, stopped) && Closed(before, step, max)
    ensures Count(run, step) == 0 && Closed(after, step, max)
  {
    hide Count;
    assert Tallied(before, after, run, step) || SameRow(before, after, step);
    assert IsDone(before, step) ==> IsDone(after, step);
  }

  lemma StartKeepsRows(db: Db, n: nat)
    requires n <= 10
    ensures var e := Ensured(db, n);
      && (forall step :: step in db.rows ==>
            step in e.rows && (e.rows[step] == db.rows[step] || e.rows[step].status.Done?))
      && forall step :: step in e.rows && step !in db.rows ==> !e.rows[step].status.Failed?
  {
    RowsEnsured(db, if n == 0 then 1 else if n <= 7 then n else 7);
    if n > 7 && !HasTenant(db) && db.tenant.None? {
      TenantEnsured(db);
    }
  }

  lemma StartAgain(db: Db, n: nat)
    requires Inv(db) && n <= 10
    ensures forall step :: IsDone(db, step) ==> IsDone(Ensured(db, n), step)
    ensures Terminal(db) ==> Terminal(Ensured(db, n)) && Ensured(db, n).saga.value.status == db.saga.value.status
    ensures HasTenant(db) ==> Ensured(db, n) == db
    ensures Unmarked(Ensured(db, n)) <==> Unmarked(db) || LateTenant(db, n)
  {
    RowsEnsured(db, if n == 0 then 1 else if n <= 7 then n else 7);
    if n > 7 && !HasTenant(db) && db.tenant.None? {
      TenantEnsured(db);
    } else if HasTenant(db) && n > 0 {
      AllRowsThere(db, Ensured(db, if n <= 7 then n else 7));
    }
  }

  /** Over any sequence of starts and resumes, stopped anywhere, with any outcomes: what must hold
  of the saga holds at the end, no step that was done is undone, a terminal saga keeps its
  status, and one with a tenant recorded is never changed.  A failed saga's tenant lacks its mark
  exactly when one of the operations left it so.  Every operation's executions are accounted for,
  and once a step is done or its attempts are used up, no later operation executes it. */
  method History(maxAttempts: nat, before: Db, ops: seq<Op>)
    returns (db: Db, ghost states: seq<Db>, ghost runs: seq<seq<Step>>)
    requires Inv(before)
    ensures Inv(db)
    ensures forall step :: IsDone(before, step) ==> IsDone(db, step)
    ensures Terminal(before) ==> Terminal(db) && db.saga.value.status == before.saga.value.status
    ensures Terminal(before) && HasTenant(before) ==> db == before
    ensures |states| == |ops| + 1 && states[0] == before && states[|ops|] == db
    ensures Unmarked(db) <==>
      Unmarked(before) || exists i :: 0 <= i < |ops| && Unmarks(states[i], ops[i], maxAttempts)
    ensures |runs| == |ops|
    ensures forall i :: 0 <= i < |ops| ==> OpTold(states[i], states[i + 1], ops[i], runs[i], maxAttempts)
    ensures forall i, j, step :: 0 <= i <= j < |ops| && Closed(states[i], step, maxAttempts) ==>
      Count(runs[j], step) == 0
    ensures FailedAreClosed(before, maxAttempts) ==> FailedAreClosed(db, maxAttempts)
  {
    hide Inv, IsDone, Unmarked, EndsUnmarked, LateTenant, Closed, FailedAreClosed, Count, Ensured, Needed, RunTold;
    db := before;
    states, runs := [before], [];
    for i := 0 to |ops|
      invariant Inv(db)
      invariant forall step :: IsDone(before, step) ==> IsDone(db, step)
      invariant Terminal(before) ==> Terminal(db) && db.saga.value.status == before.saga.value.status
      invariant Terminal(before) && HasTenant(before) ==> db == before
      invariant |states| == i + 1 && states[0] == before && states[i] == db
      invariant Unmarked(db) <==>
        Unmarked(before) || exists j :: 0 <= j < i && Unmarks(states[j], ops[j], maxAttempts)
      invariant |runs| == i
      invariant forall k :: 0 <= k < i ==> OpTold(states[k], states[k + 1], ops[k], runs[k], maxAttempts)
      invariant forall k, step :: 0 <= k <= i && Closed(states[k], step, maxAttempts) ==> Closed(db, step, maxAttempts)
      invariant forall k, j, step :: 0 <= k <= j < i && Closed(states[k], step, maxAttempts) ==>
        Count(runs[j], step) == 0
      invariant FailedAreClosed(before, maxAttempts) ==> FailedAreClosed(db, maxAttempts)
    {
      var runner := new SagaRunner(maxAttempts, db, ops[i].left);
      match ops[i] {
        case Start(left) =>
          StartAgain(db, Min(left, 10));
          LateWithinTen(db, left);
          var started := runner.EnsureStarted();
        case Resume(left, outcomes) =>
          var ended := runner.Run(outcomes);
          ghost var run :| runner.executed == [] + run
            && RunTold(db, runner.db, maxAttempts, run, ended.ProcessStopped?);
          assert [] + run == run;
      }
      assert OpTold(db, runner.db, ops[i], runner.executed, maxAttempts);
      ClosedIsFinal(db, runner.db, ops[i], runner.executed, maxAttempts);
      db := runner.db;
      states, runs := states + [db], runs + [runner.executed];
    }
  }

  lemma LateWithinTen(db: Db, left: nat)
    ensures LateTenant(db, Min(left, 10)) <==> LateTenant(db, left)
  {
  }

  /** Whatever makes a saga fail that was started in full, there is a stop after which it has
  failed and its tenant is not marked so: the tenant is still being provisioned, or is even
  active if an attempt at the last step activated it. */
  method FailsUnmarked(maxAttempts: nat, outcomes: Outcomes) returns (db: Db)
    requires !Completable(Ensured(EMPTY, 10), maxAttempts, outcomes)
    ensures Inv(db) && Unmarked(db)
    ensures db.tenant == Some(if ActivatesLast(Ensured(EMPTY, 10), maxAttempts, outcomes) then Active else Provisioning)
  {
    StartedAfresh();
    hide Ensured, Inv, Needed, Completable, ActivatesLast;
    var first := new SagaRunner(maxAttempts, EMPTY, 10);
    EmptyKeeps();
    var started := first.EnsureStarted();
    var resumed := new SagaRunner(maxAttempts, first.db, Needed(first.db, 0, maxAttempts, outcomes) - 1);
    var ended := resumed.Run(outcomes);
    db := resumed.db;
  }

  lemma EmptyKeeps()
    ensures Inv(EMPTY)
  {
  }

  lemma LastNeverFinishes(max: nat, outcomes: Outcomes)
    requires max >= 1
    requires forall step, a :: outcomes(step, a) == if step.TrialExpiry? then RaisesAfterCommit else Completes
    ensures var db := Ensured(EMPTY, 10);
      !Completable(db, max, outcomes) && ActivatesLast(db, max, outcomes)
  {
    StartedAfresh();
    var db := Ensured(EMPTY, 10);
    hide Ensured;
    assert !Finishes(db, TrialExpiry, max, outcomes);
    forall step: Step | step != TrialExpiry ensures Finishes(db, step, max, outcomes) {
      assert !step.TenantRow? ==> Attempts(db, step) == 0 && Goes(step, 1, outcomes);
    }
    assert Commits(TrialExpiry, 1, outcomes);
  }

  /** A failed saga, for good, whose tenant is active. */
  method FailsWithActiveTenant(ops: seq<Op>) returns (db: Db)
    ensures Terminal(db) && db.saga.value.status.Aborted? && db.tenant == Some(Active)
  {
    var outcomes := (step: Step, attempt: nat) => if step.TrialExpiry? then RaisesAfterCommit else Completes;
    LastNeverFinishes(3, outcomes);
    var failed := FailsUnmarked(3, outcomes);
    ghost var states, runs;
    db, states, runs := History(3, failed, ops);
  }

  /** A terminal saga does change when the first start was cut off before its tenant was
  inserted: it then fails for want of a tenant, and the next start inserts one after all. */
  method TerminalSagaCanChange(outcomes: Outcomes) returns (failed: Db, later: Db)
    ensures Terminal(failed) && later != failed
    ensures later.saga == Some(Saga(Aborted, true)) && later.tenant == Some(Provisioning)
  {
    var first := new SagaRunner(3, EMPTY, 1);
    var started := first.EnsureStarted();
    RowsEnsured(EMPTY, 1);
    assert first.db.saga == Some(Saga(Running, false));
    NeededWithoutTenant(first.db, 3, outcomes);
    var resumed := new SagaRunner(3, first.db, 100);
    var ended := resumed.Run(outcomes);
    failed := resumed.db;
    var again := new SagaRunner(3, failed, 100);
    TenantEnsured(failed);
    RowsEnsured(failed, 7);
    hide Ensured, Inv;
    started := again.EnsureStarted();
    later := again.db;
  }

  function Times(step: Step, n: nat): seq<Step> {
    if n == 0 then [] else Times(step, n - 1) + [step]
  }

  lemma OneMore(step: Step, log: seq<Step>, n: nat)
    ensures log + Times(step, n) + [step] == log + Times(step, n + 1)
  {
  }

  lemma SameRowsSameDone(db: Db, e: Db)
    requires e.rows == db.rows
    ensures forall step :: IsDone(e, step) <==> IsDone(db, step)
    ensures forall n :: DoneUpTo(e, n) <==> DoneUpTo(db, n)
  {
  }

  lemma SameAfterRows(db: Db)
    requires HasTenant(Ensured(db, 7)) || Ensured(db, 7).tenant.Some?
    ensures forall n: nat :: 7 <= n <= 10 ==> Ensured(db, n) == Ensured(db, 7)
  {
  }
}
