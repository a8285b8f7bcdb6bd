/** The persisted state of one account's provisioning saga, what every statement of the runner
keeps, and how the saga is started. */
module SagaState {
  import opened Basics

  datatype Step = TenantRow | RlsContext | EsIndex | Entitlements | AdminUser | TrialExpiry

  const STEPS := 6

  /** `STEP_ORDER` */
  function Nth(i: nat): Step
    requires i < STEPS
  {
    if i == 0 then TenantRow else if i == 1 then RlsContext else if i == 2 then EsIndex
    else if i == 3 then Entitlements else if i == 4 then AdminUser else TrialExpiry
  }

  function Index(step: Step): (i: nat)
    ensures i < STEPS && Nth(i) == step
  {
    match step
    case TenantRow => 0
    case RlsContext => 1
    case EsIndex => 2
    case Entitlements => 3
    case AdminUser => 4
    case TrialExpiry => 5
  }

  datatype Status = Pending | Done | Failed

  datatype Row = Row(status: Status, attempts: nat)

  datatype SagaStatus = Running | Succeeded | Aborted

  /** The saga row; `tenant` says whether the tenant's id has been recorded in it. */
  datatype Saga = Saga(status: SagaStatus, tenant: bool)

  datatype TenantStatus = Provisioning | Active | ProvisioningFailed

  /** The saga, its step rows, and the account's tenant, of which there is at most one. */
  datatype Db = Db(saga: Option<Saga>, rows: map<Step, Row>, tenant: Option<TenantStatus>)

  const EMPTY := Db(None, map[], None)

  predicate IsDone(db: Db, step: Step) {
    step in db.rows && db.rows[step].status.Done?
  }

  predicate Terminal(db: Db) {
    db.saga.Some? && !db.saga.value.status.Running?
  }

  predicate HasTenant(db: Db) {
    db.saga.Some? && db.saga.value.tenant
  }

  /** The first `n` steps are done. */
  predicate DoneUpTo(db: Db, n: nat) {
    forall step :: Index(step) < n ==> IsDone(db, step)
  }

  /** No step is done before one that comes earlier. */
  ghost predicate DoneIsPrefix(db: Db) {
    forall s, t :: Index(s) < Index(t) && IsDone(db, t) ==> IsDone(db, s)
  }

  ghost predicate Inv(db: Db) {
    && DoneIsPrefix(db)
    && (db.saga.None? ==> db == EMPTY)
    && (HasTenant(db) ==> db.tenant.Some? && forall step :: step in db.rows)
    && (!HasTenant(db) ==> (forall step :: !IsDone(db, step)) && db.tenant in {None, Some(Provisioning)})
    && (db.tenant == Some(Active) ==> DoneUpTo(db, 5))
    && (IsDone(db, TrialExpiry) ==> db.tenant == Some(Active))
    && (db.tenant == Some(ProvisioningFailed) ==> db.saga.value.status.Aborted?)
    && (db.saga.Some? && db.saga.value.status.Succeeded? ==> HasTenant(db) && DoneUpTo(db, STEPS))
  }

  /** The steps are done in the order of the provisioning design. */
  lemma DoneInOrder(db: Db)
    requires Inv(db)
    ensures IsDone(db, TrialExpiry) ==> IsDone(db, AdminUser)
    ensures IsDone(db, AdminUser) ==> IsDone(db, Entitlements)
    ensures IsDone(db, Entitlements) ==> IsDone(db, EsIndex)
    ensures IsDone(db, EsIndex) ==> IsDone(db, RlsContext)
    ensures IsDone(db, RlsContext) ==> IsDone(db, TenantRow)
    ensures db.tenant == Some(Active) ==> IsDone(db, AdminUser)
  {
    hide IsDone;
    assert Index(TenantRow) < Index(RlsContext) < Index(EsIndex);
    assert Index(EsIndex) < Index(Entitlements) < Index(AdminUser) < Index(TrialExpiry);
  }

  // ---- the statements of `ensure_started`

  function InsertSaga(db: Db): Db {
    if db.saga.None? then db.(saga := Some(Saga(Running, false))) else db
  }

  function InsertRow(db: Db, step: Step): Db {
    if step in db.rows then db else db.(rows := db.rows[step := Row(Pending, 0)])
  }

  /** Marking a step updates its row if there is one. */
  function MarkStep(db: Db, step: Step, row: Row): Db {
    if step in db.rows then db.(rows := db.rows[step := row]) else db
  }

  function RecordTenant(db: Db): Db {
    if db.saga.Some? then db.(saga := Some(db.saga.value.(tenant := true))) else db
  }

  /** The statements in order: the saga, the six rows, and, unless a tenant is recorded, the
  tenant, its record in the saga, and the first step's mark. */
  function Statement(db: Db, n: nat): Db
    requires n < 10
  {
    if n == 0 then InsertSaga(db)
    else if n <= STEPS then InsertRow(db, Nth(n - 1))
    else if n == 7 then db.(tenant := Some(Provisioning))
    else if n == 8 then RecordTenant(db)
    else MarkStep(db, TenantRow, Row(Done, 1))
  }

  /** The database when the runner has executed `n` of its statements.  A recorded tenant ends
  it after the rows; a tenant that exists without being recorded makes the insert fail. */
  function Ensured(db: Db, n: nat): Db
    requires n <= 10
  {
    if n == 0 then db
    else if n <= 7 then Statement(Ensured(db, n - 1), n - 1)
    else if HasTenant(Ensured(db, 7)) || Ensured(db, 7).tenant.Some? then Ensured(db, 7)
    else Statement(Ensured(db, n - 1), n - 1)
  }

  lemma {:induction false} RowsEnsured(db: Db, n: nat)
    requires 1 <= n <= 7
    ensures var e := Ensured(db, n);
      && e.saga == (if db.saga.None? then Some(Saga(Running, false)) else db.saga) && e.tenant == db.tenant
      && (forall step :: step in e.rows <==> step in db.rows || Index(step) < n - 1)
      && (forall step :: step in db.rows ==> e.rows[step] == db.rows[step])
      && (forall step :: step in e.rows && step !in db.rows ==> e.rows[step] == Row(Pending, 0))
  {
    if n > 1 {
      RowsEnsured(db, n - 1);
      var e, step := Ensured(db, n - 1), Nth(n - 2);
      IndexNth(n - 2);
      hide Nth, Index;
      assert Ensured(db, n) == InsertRow(e, step);
      assert forall t :: Index(t) < n - 1 <==> Index(t) < n - 2 || t == step by { IndexInjective(); }
    } else {
      assert Ensured(db, 0) == db;
    }
  }

  lemma IndexNth(i: nat)
    requires i < STEPS
    ensures Index(Nth(i)) == i
  {
  }

  lemma IndexInjective()
    ensures forall s, t :: Index(s) == Index(t) ==> s == t
  {
  }

  /** The last three statements, if they are reached. */
  lemma TenantEnsured(db: Db)
    requires db.tenant.None? && !HasTenant(db)
    ensures var rows := Ensured(db, 7);
      && Ensured(db, 8) == rows.(tenant := Some(Provisioning))
      && Ensured(db, 9) == RecordTenant(Ensured(db, 8))
      && Ensured(db, 10) == MarkStep(Ensured(db, 9), TenantRow, Row(Done, 1))
  {
    RowsEnsured(db, 7);
    hide Index, Nth;
    assert Ensured(db, 8) == Statement(Ensured(db, 7), 7);
    assert Ensured(db, 9) == Statement(Ensured(db, 8), 8);
    assert Ensured(db, 10) == Statement(Ensured(db, 9), 9);
  }

  lemma PendingRowsKeep(db: Db, e: Db)
    requires Inv(db) && e.tenant == db.tenant
    requires e.saga == if db.saga.None? then Some(Saga(Running, false)) else db.saga
    requires forall step :: step in db.rows ==> step in e.rows && e.rows[step] == db.rows[step]
    requires forall step :: step in e.rows && step !in db.rows ==> e.rows[step] == Row(Pending, 0)
    ensures Inv(e)
  {
    assert forall step :: IsDone(e, step) <==> IsDone(db, step);
    hide Index, IsDone;
  }

  /** However early the start is cut off, what must hold of the saga holds. */
  lemma EnsuredKeeps(db: Db, n: nat)
    requires Inv(db) && n <= 10
    ensures Inv(Ensured(db, n))
  {
    RowsEnsured(db, if n == 0 then 1 else if n <= 7 then n else 7);
    if 1 <= n {
      PendingRowsKeep(db, Ensured(db, if n <= 7 then n else 7));
    }
    if n > 7 && !HasTenant(db) && db.tenant.None? {
      TenantEnsured(db);
      hide Ensured;
      TenantKeeps(Ensured(db, 7));
    }
  }

  lemma TenantKeeps(db: Db)
    requires Inv(db) && db.saga.Some? && !HasTenant(db) && db.tenant.None? && forall step :: step in db.rows
    ensures var e := db.(tenant := Some(Provisioning));
      Inv(e) && Inv(RecordTenant(e)) && Inv(MarkStep(RecordTenant(e), TenantRow, Row(Done, 1)))
  {
    var e := db.(tenant := Some(Provisioning));
    assert forall step :: IsDone(e, step) <==> IsDone(db, step);
    var f := RecordTenant(e);
    assert forall step :: IsDone(f, step) <==> IsDone(db, step);
    var g := MarkStep(f, TenantRow, Row(Done, 1));
    assert TenantRow in db.rows;
    assert forall step :: IsDone(g, step) <==> step == TenantRow || IsDone(f, step);
  }

  /** Starting again leaves a terminal saga's status alone. */
  lemma StatusKept(db: Db, n: nat)
    requires Inv(db) && Terminal(db) && n <= 10
    ensures Ensured(db, n).saga.Some? && Ensured(db, n).saga.value.status == db.saga.value.status
  {
    RowsEnsured(db, if n == 0 then 1 else if n <= 7 then n else 7);
    if n > 7 && !HasTenant(db) && db.tenant.None? {
      TenantEnsured(db);
    }
  }

  /** Starting a terminal saga again, to the end, leaves it unchanged exactly when it has a
  tenant recorded, or cannot have one because the account's tenant exists unrecorded and all
  step rows are there. */
  lemma TerminalUnchangedIff(db: Db)
    requires Inv(db) && Terminal(db)
    ensures Ensured(db, 10) == db <==> HasTenant(db) || (db.tenant.Some? && forall step :: step in db.rows)
  {
    hide DoneIsPrefix, DoneUpTo, IsDone;
    RowsEnsured(db, 7);
    if HasTenant(db) || db.tenant.Some? {
      assert Ensured(db, 10) == Ensured(db, 7);
      hide Ensured;
      AllRowsThere(db, Ensured(db, 7));
    } else {
      TenantEnsured(db);
      hide Ensured;
      assert HasTenant(Ensured(db, 10));
    }
  }

  lemma AllRowsThere(db: Db, e: Db)
    requires e.saga == db.saga && e.tenant == db.tenant
    requires forall step :: step in db.rows ==> step in e.rows && e.rows[step] == db.rows[step]
    requires forall step :: step in e.rows
    ensures e == db <==> forall step :: step in db.rows
  {
    if forall step :: step in db.rows {
      assert e.rows == db.rows;
    }
  }

  /** Started for the first time and not cut off, the saga runs with its tenant recorded, its
  first step done, and the others pending. */
  lemma StartedAfresh()
    ensures var db := Ensured(EMPTY, 10);
      && db.saga == Some(Saga(Running, true)) && db.tenant == Some(Provisioning)
      && forall step :: step in db.rows && db.rows[step] == if step.TenantRow? then Row(Done, 1) else Row(Pending, 0)
  {
    RowsEnsured(EMPTY, 7);
    TenantEnsured(EMPTY);
    hide Ensured;
  }
}
