/** A run of the system in which an expiry passes over a row that is due: it plans by the hire date alone, and the row
    belongs to somebody hired after its date. */
module PlanExample {
  import opened Common
  import opened Calendar
  import opened LeaveRules
  import opened JobHistory
  import opened LeaveAccrual
  import opened LeaveLedger
  import opened JobRuns
  import opened SmallLedger
  import opened JobInvariants
  import opened JobRefinement
  import JobClosing

  const APRIL := Ymd(2025, 4, 1)
  const MAY := Ymd(2025, 5, 1)
  const JUNE := Ymd(2025, 6, 1)
  const JULY := Ymd(2025, 7, 1)

  const VIEWED := NewBalance(6)
  const CARRIED := NewBalance(6).(carried := 6, applied := true, expiresOn := Some(APRIL))

  /** Hired on 1 June 2025; the balance of 2024 is looked at, and the accrual of 1 July carries its days over. */
  const VIEW := [Leave(1, Setup(JUNE)[0]), Leave(1, Setup(JUNE)[1]), Leave(1, Setup(JUNE)[2]),
                 Leave(1, Viewing(K(2024)))]
  const ACCRUAL := [Creating(1, 1, Some(AccrualJob), AsOf(Some(JULY)), false, None, JULY), Starting(1, 1, false),
                    Executing(1, 1, 1), Finalizing(1, 1)]
  const EXPIRY := [Creating(2, 1, Some(ExpiryJob), AsOf(Some(MAY)), false, None, JULY)]
  const START := Starting(1, 2, false)

  function Rows(balances: map<Key, Balance>): Store { Small(JUNE, GRANT, balances) }

  lemma Dates()
    ensures APRIL <= MAY < JUNE <= JULY && Year(MAY) == Year(JULY) == 2025
    ensures CarryOverExpiry(2025, 3) == Some(APRIL)
  {
    hide Year, DaysBeforeYear, IsLeap;
    YearOfDate(2025, 5, 1);
    YearOfDate(2025, 7, 1);
  }

  // ---- the leave tables ----

  lemma ViewedRow()
    ensures Next(WithoutRequests(Rows(map[])), Viewing(K(2024))) == WithoutRequests(Rows(map[K(2024) := VIEWED]))
  {
    hide Ymd, JanFirst, PickPolicy, ServiceMonths, JobAsOf;
    var reference := Max(JanFirst(2024), JUNE);
    assert OfType([GRANT], 1) == [GRANT];
    OnePolicy(GRANT, GradeAt(Clerk(JUNE), reference), ServiceMonths(JUNE, reference));
  }

  lemma AccruedRow()
    ensures RunChunk(AccrualJob, Rows(map[K(2024) := VIEWED]), JULY, 1, 1).0 ==
            Rows(map[K(2024) := VIEWED, K(2025) := CARRIED])
  {
    hide RunChunk, Year, Ymd, Accrued, CarryOverExpiry;
    Dates();
    AccrueOne(JUNE, GRANT, map[K(2024) := VIEWED], JULY, 1, 1);
    RowOf(JUNE, GRANT, map[K(2024) := VIEWED], 2025, JULY);
  }

  lemma RowIsDue()
    ensures var st := Rows(map[K(2024) := VIEWED, K(2025) := CARRIED]);
            K(2025) in ChunkKeys(ExpiryJob, st, MAY, 0, 1) && RunChunk(ExpiryJob, st, MAY, 0, 1).0 != st
  {
    hide CountsFor, Year, Ymd;
    Dates();
    var st := Rows(map[K(2024) := VIEWED, K(2025) := CARRIED]);
    assert FallsDue(st, MAY, K(2025));
    assert RunChunk(ExpiryJob, st, MAY, 0, 1).0.balances[K(2025)].closed;
  }

  // ---- the system ----

  /** The leave tables of the tenant, and no expiry run yet. */
  predicate Has(s: System, st: Store) {
    StoreOf(s, 1) == st && s.runs.Keys <= {1} && (1 in s.runs ==> s.runs[1].job.AccrualJob?)
  }

  lemma AfterView()
    ensures Has(Reach(INITIAL, VIEW), Rows(map[K(2024) := VIEWED])) && Reach(INITIAL, VIEW).runs == map[]
  {
    hide Next, Ymd;
    JobClosing.FourSteps(VIEW[0], VIEW[1], VIEW[2], VIEW[3]);
    FirstSteps(JUNE);
    ViewedRow();
  }

  lemma Created(s: System, st: Store)
    requires Has(s, st) && s.runs == map[]
    ensures var s' := Advance(s, ACCRUAL[0]);
            Has(s', st) && RunIn(s', 1, 1, Queued) && s'.runs[1].asOf == JULY && !s'.runs[1].dryRun
            && StartTask(1, 1) in s'.sent
  {
    hide Ymd;
  }

  lemma StartedIt(s: System, st: Store)
    requires Has(s, st) && st.employees == map[1 := Clerk(JUNE)]
    requires RunIn(s, 1, 1, Queued) && s.runs[1].asOf == JULY && !s.runs[1].dryRun && StartTask(1, 1) in s.sent
    ensures var s' := Advance(s, ACCRUAL[1]);
            && Has(s', st) && RunIn(s', 1, 1, Running) && s'.runs[1].asOf == JULY && !s'.runs[1].dryRun
            && ChunkTask(1, 1, 1) in s'.sent && |s'.runs[1].chunks| == 1 && s'.runs[1].chunks[0].status.ChunkPending?
            && s'.runs[1].chunks[0].range == Range(1, 1, 1)
  {
    hide Plan, Ymd;
    Dates();
    JobClosing.PlanOfOne(st.employees, JULY);
    var run := Started(s.runs[1], Plan(st.employees, JULY));
    assert ChunkTask(1, 1, run.chunks[0].no) in ChunkTasks(1, 1, run.chunks);
  }

  lemma ExecutedAndClosed(s: System, st: Store)
    requires Has(s, st) && RunIn(s, 1, 1, Running) && s.runs[1].asOf == JULY && !s.runs[1].dryRun
    requires ChunkTask(1, 1, 1) in s.sent && |s.runs[1].chunks| == 1 && s.runs[1].chunks[0].status.ChunkPending?
    requires s.runs[1].chunks[0].range == Range(1, 1, 1)
    ensures Has(Advance(Advance(s, ACCRUAL[2]), ACCRUAL[3]), RunChunk(AccrualJob, st, JULY, 1, 1).0)
  {
    hide RunChunk, Ymd, Finalized;
    var s1 := Advance(s, ACCRUAL[2]);
    assert s1 == ExecuteChunk(s, 1, 1, 1) && Advance(s1, ACCRUAL[3]) == Finalize(s1, 1, 1);
    assert Has(s1, RunChunk(AccrualJob, st, JULY, 1, 1).0);
    assert Finalized(s1.runs[1]).job.AccrualJob? by { ClosingKeepsJob(s1.runs[1]); }
  }

  lemma ClosingKeepsJob(run: Run)
    ensures Finalized(run).job == run.job
  {}

  lemma AfterAccrual()
    ensures Has(Reach(INITIAL, VIEW + ACCRUAL), Rows(map[K(2024) := VIEWED, K(2025) := CARRIED]))
  {
    hide Advance, Ymd, RunChunk, Has;
    AfterView();
    AccruedRow();
    var st := Rows(map[K(2024) := VIEWED]);
    var s0 := Reach(INITIAL, VIEW);
    Created(s0, st);
    var s1 := Advance(s0, ACCRUAL[0]);
    StartedIt(s1, st);
    var s2 := Advance(s1, ACCRUAL[1]);
    ExecutedAndClosed(s2, st);
    JobClosing.OneStep(VIEW, ACCRUAL[0]);
    JobClosing.OneStep(VIEW + [ACCRUAL[0]], ACCRUAL[1]);
    JobClosing.OneStep(VIEW + [ACCRUAL[0]] + [ACCRUAL[1]], ACCRUAL[2]);
    JobClosing.OneStep(VIEW + [ACCRUAL[0]] + [ACCRUAL[1]] + [ACCRUAL[2]], ACCRUAL[3]);
    assert VIEW + [ACCRUAL[0]] + [ACCRUAL[1]] + [ACCRUAL[2]] + [ACCRUAL[3]] == VIEW + ACCRUAL;
  }

  /** A queued expiry run of 1 May over these leave tables. */
  predicate ExpiryQueued(s: System, st: Store) {
    && StoreOf(s, 1) == st && RunIn(s, 1, 2, Queued) && StartTask(1, 2) in s.sent
    && s.runs[2].job.ExpiryJob? && s.runs[2].asOf == MAY && !s.runs[2].dryRun
  }

  lemma ExpiryCreated(s: System, st: Store)
    requires Has(s, st)
    ensures ExpiryQueued(Advance(s, EXPIRY[0]), st)
  {
    hide Ymd, CreateRun, StartRun, ExecuteChunk, RecordFailure, Finalize, CancelRun, RetryRun, FireSchedule, Next;
    Dates();
    Accepted(s, MAY, JULY);
  }

  lemma Accepted(s: System, asOf: Date, today: Date)
    requires s.runs.Keys <= {1} && (1 in s.runs ==> s.runs[1].job.AccrualJob?) && asOf <= today
    ensures CreateRun(s, 2, 1, Some(ExpiryJob), AsOf(Some(asOf)), false, None, today).system ==
            Send(WithRun(s, 2, NewRun(1, ExpiryJob, asOf, false, None)), {StartTask(1, 2)})
  {
    assert !AnyActive(s, 1, ExpiryJob);
  }

  lemma NobodyPlanned(es: map<EmpId, Employee>)
    requires es == map[1 := Clerk(JUNE)]
    ensures Plan(es, MAY) == []
  {
    hide Ymd;
    Dates();
    assert (set e | e in es && es[e].hireDate <= MAY) == {};
    assert |PlannedIds(es, MAY)| == 0;
  }

  lemma StartedEmpty(s: System, st: Store)
    requires ExpiryQueued(s, st) && st.employees == map[1 := Clerk(JUNE)]
    ensures RunIn(Advance(s, START), 1, 2, Succeeded) && StoreOf(Advance(s, START), 1) == st
  {
    hide Plan, Ymd;
    NobodyPlanned(st.employees);
  }

  const HISTORY := VIEW + ACCRUAL + EXPIRY

  /** The expiry run plans nobody and succeeds, and the row that is due stays as it was. */
  lemma ExpiryMissesDueRow()
    ensures var s, end := Reach(INITIAL, HISTORY), Reach(Reach(INITIAL, HISTORY), [START]);
            && Inv(s) && ExpiryQueued(s, StoreOf(s, 1)) && QuietThroughout(s, [START], 1, 2)
            && AllUpTo(StoreOf(s, 1).employees, 1)
            && RunIn(end, 1, 2, Succeeded) && StoreOf(end, 1) == StoreOf(s, 1)
            && K(2025) in ChunkKeys(ExpiryJob, StoreOf(s, 1), MAY, 0, 1)
            && RunChunk(ExpiryJob, StoreOf(s, 1), MAY, 0, 1).0 != StoreOf(end, 1)
  {
    hide Inv, Advance, Ymd, RunChunk, ChunkKeys, Has;
    AlwaysInv(HISTORY);
    AfterAccrual();
    var st := Rows(map[K(2024) := VIEWED, K(2025) := CARRIED]);
    ExpiryCreated(Reach(INITIAL, VIEW + ACCRUAL), st);
    JobClosing.OneStep(VIEW + ACCRUAL, EXPIRY[0]);
    assert VIEW + ACCRUAL + [EXPIRY[0]] == HISTORY;
    var s := Reach(INITIAL, HISTORY);
    StartedEmpty(s, st);
    RowIsDue();
    Alone(s, START);
  }

  lemma Alone(s: System, a: Action)
    requires StoreOf(Advance(s, a), 1) == StoreOf(s, 1)
    ensures Reach(s, [a]) == Advance(s, a) && QuietThroughout(s, [a], 1, 2)
  {
    hide Advance;
    assert [a][..0] == [];
    assert Reach(s, []) == s && QuietThroughout(s, [], 1, 2);
  }
}
