/** The main results about the job protocol alone. */
module JobTheorems {
  import opened Common
  import opened Calendar
  import opened LeaveAccrual
  import opened LeaveLedger
  import opened JobRuns
  import opened JobInvariants

  // ---- what can change about a run ----

  /** Identity, plan and finished work stay. */
  predicate RunKept(a: Run, b: Run) {
    && b.tenant == a.tenant && b.job == a.job && b.dryRun == a.dryRun && b.asOf == a.asOf && b.key == a.key
    && (a.chunks != [] ==> |b.chunks| == |a.chunks|)
    && (forall i :: 0 <= i < |a.chunks| && i < |b.chunks| ==>
          b.chunks[i].no == a.chunks[i].no && b.chunks[i].range == a.chunks[i].range
          && (a.chunks[i].status.ChunkDone? ==> b.chunks[i] == a.chunks[i]))
  }

  predicate NoNewDone(a: Run, b: Run) {
    forall i :: 0 <= i < |b.chunks| && b.chunks[i].status.ChunkDone? ==> i < |a.chunks| && a.chunks[i].status.ChunkDone?
  }

  /** What every action but a chunk's execution leaves alone. */
  predicate Untouched(s: System, s': System, id: RunId)
    requires id in s.runs
  {
    id in s'.runs && RunKept(s.runs[id], s'.runs[id]) && NoNewDone(s.runs[id], s'.runs[id])
    && (!IsActive(s.runs[id].status) ==> s'.runs[id] == s.runs[id])
  }

  lemma StartKept(run: Run, ranges: seq<Range>)
    requires RunOk(run) && run.status.Queued?
    ensures RunKept(run, Started(run, ranges)) && NoNewDone(run, Started(run, ranges))
    ensures RunKept(run, PlanFailed(run)) && NoNewDone(run, PlanFailed(run))
  {
    hide CountStatus, SumOutputs, ChunkOk;
  }

  lemma KeptByStart(s: System, t: TenantId, r: RunId, planFails: bool, id: RunId)
    requires Inv(s) && id in s.runs
    ensures Untouched(s, StartRun(s, t, r, planFails), id)
  {
    hide Plan, LedgerOf, ChunkTasks, RunKept, NoNewDone, Started, PlanFailed, RunOk, Inv, StoreOf;
    SameRunKept(s.runs[id]);
    if RunIn(s, t, r, Queued) {
      RunIsOk(s, r);
      StartKept(s.runs[r], Plan(StoreOf(s, t).employees, s.runs[r].asOf));
    }
  }

  lemma AttemptKept(run: Run, no: nat, output: Counts)
    requires 1 <= no <= |run.chunks| && run.chunks[no - 1].status.ChunkPending?
    ensures RunKept(run, ChunkAttemptFailed(run, no)) && NoNewDone(run, ChunkAttemptFailed(run, no))
    ensures RunKept(run, ChunkSucceeded(run, no, output))
    ensures forall i :: 0 <= i < |run.chunks| ==>
              (ChunkSucceeded(run, no, output).chunks[i].status.ChunkDone? <==>
               run.chunks[i].status.ChunkDone? || i == no - 1)
  {}

  lemma ClosingKept(run: Run)
    ensures RunKept(run, Finalized(run)) && NoNewDone(run, Finalized(run))
    ensures RunKept(run, CancelledRun(run)) && NoNewDone(run, CancelledRun(run))
  {
    hide CountStatus, SumOutputs;
  }

  lemma SameRunKept(run: Run)
    ensures RunKept(run, run) && NoNewDone(run, run)
  {}

  lemma KeptByFailure(s: System, t: TenantId, r: RunId, no: nat, id: RunId)
    requires Inv(s) && id in s.runs
    ensures Untouched(s, RecordFailure(s, t, r, no), id)
  {
    hide RunKept, NoNewDone, RunOk, Inv, ChunkAttemptFailed;
    SameRunKept(s.runs[id]);
    if ChunkIn(s, t, r, no) {
      RunIsOk(s, r);
      PendingMeansRunning(s.runs[r], no);
      AttemptKept(s.runs[r], no, ZERO);
    }
  }

  /** The chunk an execution commits, if it is one of this run. */
  predicate Executes(s: System, t: TenantId, r: RunId, no: nat, id: RunId) {
    r == id && ChunkIn(s, t, r, no) && s.runs[r].status.Running?
  }

  lemma KeptByExecution(s: System, t: TenantId, r: RunId, no: nat, id: RunId)
    requires Inv(s) && id in s.runs
    ensures var s' := ExecuteChunk(s, t, r, no);
            id in s'.runs && RunKept(s.runs[id], s'.runs[id]) && |s'.runs[id].chunks| == |s.runs[id].chunks|
            && (!Executes(s, t, r, no, id) ==> s'.runs[id] == s.runs[id])
            && (Executes(s, t, r, no, id) ==> forall i :: 0 <= i < |s.runs[id].chunks| ==>
                 (s'.runs[id].chunks[i].status.ChunkDone? <==> s.runs[id].chunks[i].status.ChunkDone? || i == no - 1))
  {
    hide RunKept, RunOk, Inv, RunChunk, LedgerOf, StoreOf;
    SameRunKept(s.runs[id]);
    if ChunkIn(s, t, r, no) {
      var run := s.runs[r];
      var (_, counts) := RunChunk(run.job, StoreOf(s, t), run.asOf, run.chunks[no - 1].range.first,
                                  run.chunks[no - 1].range.last);
      AttemptKept(run, no, counts);
    }
  }

  lemma KeptByClosing(s: System, t: TenantId, r: RunId, id: RunId)
    requires Inv(s) && id in s.runs
    ensures Untouched(s, Finalize(s, t, r), id) && Untouched(s, CancelRun(s, t, r).system, id)
  {
    hide RunKept, NoNewDone, Finalized, CancelledRun, Inv;
    SameRunKept(s.runs[id]);
    if r in s.runs { ClosingKept(s.runs[r]); }
  }

  lemma RetryKept(run: Run)
    ensures RunKept(run, Retried(run)) && NoNewDone(run, Retried(run))
  {}

  lemma KeptByRetry(s: System, t: TenantId, r: RunId, id: RunId)
    requires Inv(s) && id in s.runs
    ensures var s' := RetryRun(s, t, r).system;
            id in s'.runs && RunKept(s.runs[id], s'.runs[id]) && NoNewDone(s.runs[id], s'.runs[id])
            && (s'.runs[id] != s.runs[id] ==>
                r == id && s.runs[id].tenant == t && (s.runs[id].status.RunFailed? || s.runs[id].status.Partial?))
  {
    hide RunKept, NoNewDone, Retried, ChunkTasks, AnyActive, Inv;
    SameRunKept(s.runs[id]);
    if r in s.runs { RetryKept(s.runs[r]); }
  }

  lemma KeptByCreation(s: System, r: RunId, t: TenantId, job: Option<JobCode>, params: Params, dryRun: bool,
                       key: Option<string>, today: Date, id: RunId)
    requires id in s.runs && r !in s.runs
    ensures Untouched(s, CreateRun(s, r, t, job, params, dryRun, key, today).system, id)
  {
    hide AnyActive, KeyTaken;
  }

  lemma KeptByOthers(s: System, a: Action, id: RunId)
    requires Inv(s) && id in s.runs && !a.Executing? && !a.Retrying?
    ensures Untouched(s, Advance(s, a), id)
  {
    hide StartRun, RecordFailure, Finalize, CancelRun, CreateRun, ChunkTasks, Next, Inv;
    match a {
      case Creating(r, t, job, params, dryRun, key, today) =>
        if r !in s.runs { KeptByCreation(s, r, t, job, params, dryRun, key, today, id); }
      case Starting(t, r, planFails) => KeptByStart(s, t, r, planFails, id);
      case Failing(t, r, no) => KeptByFailure(s, t, r, no, id);
      case Finalizing(t, r) => KeptByClosing(s, t, r, id);
      case CancellingRun(t, r) => KeptByClosing(s, t, r, id);
      case Firing(sid, now, next, r, today) =>
        if r !in s.runs && sid in s.schedules {
          var schedule := s.schedules[sid].(nextRun := next, lastRun := Some(now));
          KeptByCreation(s.(schedules := s.schedules[sid := schedule]), r, schedule.tenant, schedule.job,
                         schedule.params, false, None, today, id);
        }
      case _ =>
    }
  }

  /** Chunks are planned once; a successful chunk stays as it is through cancel, retry and resend; a finished
      run changes only when a failed or partial one is retried. */
  lemma RunsAreKept(s: System, a: Action, id: RunId)
    requires Inv(s) && id in s.runs
    ensures id in Advance(s, a).runs && RunKept(s.runs[id], Advance(s, a).runs[id])
    ensures !IsActive(s.runs[id].status) ==>
              Advance(s, a).runs[id] == s.runs[id]
              || (a == Retrying(s.runs[id].tenant, id) && (s.runs[id].status.RunFailed? || s.runs[id].status.Partial?))
  {
    hide Inv, RunKept, ExecuteChunk, RetryRun, NoNewDone;
    match a {
      case Executing(t, r, no) => KeptByExecution(s, t, r, no, id);
      case Retrying(t, r) => KeptByRetry(s, t, r, id);
      case _ => KeptByOthers(s, a, id);
    }
  }

  /** No tenant ever has two active runs of one job, nor two runs under one idempotency key. */
  lemma OneActiveRun(actions: seq<Action>, r: RunId, q: RunId)
    requires var s := Reach(INITIAL, actions);
             r in s.runs && q in s.runs && r != q && s.runs[r].tenant == s.runs[q].tenant
    ensures var s := Reach(INITIAL, actions);
            && !(s.runs[r].job == s.runs[q].job && IsActive(s.runs[r].status) && IsActive(s.runs[q].status))
            && !(s.runs[r].key.Some? && s.runs[r].key == s.runs[q].key)
  {
    AlwaysInv(actions);
    var s := Reach(INITIAL, actions);
    assert Compatible(r, s.runs[r], q, s.runs[q]);
  }

  /** A run is created iff its job and parameters are known, its date is not in the future, no active run of the
      tenant does the same job and no run has its key; a known key other than the empty one gives its run instead. */
  lemma CreateAcceptsExactly(s: System, id: RunId, t: TenantId, job: Option<JobCode>, params: Params, dryRun: bool,
                             key: Option<string>, today: Date)
    requires id !in s.runs
    ensures var reply := CreateRun(s, id, t, job, params, dryRun, key, today);
            var known := key.Some? && exists r :: r in s.runs && s.runs[r].tenant == t && s.runs[r].key == key;
            var busy := exists r :: r in s.runs && s.runs[r].tenant == t && job == Some(s.runs[r].job)
                                    && (s.runs[r].status == Queued || s.runs[r].status == Running);
            && (reply.result.Ok? <==>
                 && job.Some?
                 && ((known && key != Some(""))
                     || (params.AsOf? && (params.date.Some? ==> params.date.value <= today) && !busy && !known)))
            && (reply.system == s <==> reply.result != Ok(id))
  {
    var reply := CreateRun(s, id, t, job, params, dryRun, key, today);
    assert KeyTaken(s, t, key) <==>
           key.Some? && exists r :: r in s.runs && s.runs[r].tenant == t && s.runs[r].key == key by {
      if KeyTaken(s, t, key) { var r :| r in s.runs && HasRunKey(s, r, t, key); }
      if r :| r in s.runs && s.runs[r].tenant == t && s.runs[r].key == key { assert HasRunKey(s, r, t, key); }
    }
    if reply.result == Ok(id) { assert id in reply.system.runs; }
  }

  // ---- what a commit is ----

  predicate Commits(s: System, a: Action, id: RunId, no: nat) {
    a.Executing? && a.id == id && a.no == no && ChunkIn(s, a.t, id, no) && s.runs[id].status.Running?
    && !s.runs[id].dryRun
  }

  predicate IsDone(s: System, id: RunId, no: nat) {
    id in s.runs && 1 <= no <= |s.runs[id].chunks| && s.runs[id].chunks[no - 1].status.ChunkDone? && !s.runs[id].dryRun
  }

  lemma KeptIdentity(a: Run, b: Run)
    requires RunKept(a, b)
    ensures a.dryRun == b.dryRun
  {}

  lemma DoneStays(a: Run, b: Run, no: nat)
    requires RunKept(a, b) && NoNewDone(a, b)
    ensures 1 <= no <= |b.chunks| && b.chunks[no - 1].status.ChunkDone? <==>
            1 <= no <= |a.chunks| && a.chunks[no - 1].status.ChunkDone?
  {}

  lemma DoneExactlyByCommit(s: System, a: Action, id: RunId, no: nat)
    requires Inv(s)
    ensures IsDone(Advance(s, a), id, no) <==> IsDone(s, id, no) || Commits(s, a, id, no)
    ensures Commits(s, a, id, no) ==> !IsDone(s, id, no)
  {
    hide Inv, ExecuteChunk, RetryRun, RunKept, NoNewDone;
    if id in s.runs {
      RunsAreKept(s, a, id);
      KeptIdentity(s.runs[id], Advance(s, a).runs[id]);
      match a {
        case Executing(t, r, n) => KeptByExecution(s, t, r, n, id);
        case Retrying(t, r) => KeptByRetry(s, t, r, id); DoneStays(s.runs[id], Advance(s, a).runs[id], no);
        case _ => KeptByOthers(s, a, id); DoneStays(s.runs[id], Advance(s, a).runs[id], no);
      }
    } else {
      NewRunsHaveNoChunks(s, a, id);
    }
  }

  lemma NewRunsHaveNoChunks(s: System, a: Action, id: RunId)
    requires id !in s.runs
    ensures id in Advance(s, a).runs ==> Advance(s, a).runs[id].chunks == []
  {
    hide RunChunk, Plan, LedgerOf, Next, ChunkTasks, KeyTaken, AnyActive;
  }

  /** Business data changes by a committed chunk, on its own tenant, or by the leave service itself. */
  lemma OnlyCommitsTouchData(s: System, a: Action)
    requires Inv(s) && !a.Leave?
    requires forall id, no :: !Commits(s, a, id, no)
    ensures Advance(s, a).ledgers == s.ledgers
  {
    hide RunChunk, Plan, Next, ChunkTasks, KeyTaken, AnyActive, Inv, Finalized, CancelledRun, Retried, Started;
    hide ChunkAttemptFailed, ChunkSucceeded;
    if a.Executing? { assert !Commits(s, a, a.id, a.no); }
  }

  // ---- attempts as a measure ----

  /** The attempts a chunk has left. */
  function Left(c: Chunk, max: nat): int { if c.status.ChunkPending? then max - c.attempts else 0 }

  function Remaining(cs: seq<Chunk>, max: nat): int {
    if cs == [] then 0 else Remaining(cs[..|cs| - 1], max) + Left(cs[|cs| - 1], max)
  }

  function RemainingOf(run: Run): int { Remaining(run.chunks, MaxAttempts(run.job)) }

  lemma {:induction false} RemainingUpdate(cs: seq<Chunk>, i: nat, c: Chunk, max: nat)
    requires i < |cs|
    ensures Remaining(cs[i := c], max) == Remaining(cs, max) - Left(cs[i], max) + Left(c, max)
  {
    var n := |cs| - 1;
    if i == n {
      assert cs[i := c][..n] == cs[..n];
    } else {
      assert cs[i := c][..n] == cs[..n][i := c];
      RemainingUpdate(cs[..n], i, c, max);
    }
  }

  lemma {:induction false} RemainingBounds(cs: seq<Chunk>, max: nat)
    requires forall i :: 0 <= i < |cs| ==> ChunkOk(cs[i], i + 1, max)
    ensures 0 <= Remaining(cs, max) <= max * |cs|
    ensures Remaining(cs, max) == 0 <==> NoneWith(cs, ChunkPending)
  {
    if cs != [] {
      var n := |cs| - 1;
      RemainingBounds(cs[..n], max);
      assert NoneWith(cs, ChunkPending) <==> NoneWith(cs[..n], ChunkPending) && !cs[n].status.ChunkPending?;
      assert max * |cs| == max * n + max;
      assert ChunkOk(cs[n], n + 1, max);
    }
  }

  /** Chunk by chunk no attempts came back. */
  lemma {:induction false} RemainingDrops(cs: seq<Chunk>, ds: seq<Chunk>, max: nat)
    requires |cs| == |ds| && forall i :: 0 <= i < |cs| ==> Left(ds[i], max) <= Left(cs[i], max)
    ensures Remaining(ds, max) <= Remaining(cs, max)
  {
    if cs != [] { RemainingDrops(cs[..|cs| - 1], ds[..|cs| - 1], max); }
  }

  lemma OutcomeUsesAttempt(run: Run, no: nat, output: Counts)
    requires RunOk(run) && 1 <= no <= |run.chunks| && run.chunks[no - 1].status.ChunkPending?
    ensures 0 <= RemainingOf(ChunkSucceeded(run, no, output)) < RemainingOf(run)
    ensures 0 <= RemainingOf(ChunkAttemptFailed(run, no)) < RemainingOf(run)
  {
    hide Remaining, CountStatus, SumOutputs, MaxAttempts;
    var max := MaxAttempts(run.job);
    PendingMeansRunning(run, no);
    ChunkStepOk(run, no, output);
    RemainingBounds(ChunkSucceeded(run, no, output).chunks, max);
    RemainingBounds(ChunkAttemptFailed(run, no).chunks, max);
    RemainingUpdate(run.chunks, no - 1, ChunkSucceeded(run, no, output).chunks[no - 1], max);
    RemainingUpdate(run.chunks, no - 1, ChunkAttemptFailed(run, no).chunks[no - 1], max);
    assert ChunkOk(run.chunks[no - 1], no, max);
  }

  /** Every recorded outcome, good or bad, uses up attempts. */
  lemma AttemptsRunOut(s: System, t: TenantId, id: RunId, no: nat)
    requires Inv(s) && ChunkIn(s, t, id, no)
    ensures 0 <= RemainingOf(ExecuteChunk(s, t, id, no).runs[id]) < RemainingOf(s.runs[id])
    ensures 0 <= RemainingOf(RecordFailure(s, t, id, no).runs[id]) < RemainingOf(s.runs[id])
  {
    hide RunChunk, LedgerOf, StoreOf, Inv, RunOk, RemainingOf, ChunkSucceeded, ChunkAttemptFailed;
    var run := s.runs[id];
    RunIsOk(s, id);
    PendingMeansRunning(run, no);
    var (_, counts) := RunChunk(run.job, StoreOf(s, t), run.asOf, run.chunks[no - 1].range.first,
                                run.chunks[no - 1].range.last);
    OutcomeUsesAttempt(run, no, counts);
  }

  /** An action that records an outcome of one of the run's chunks. */
  predicate RecordsOutcome(s: System, a: Action, id: RunId) {
    (a.Executing? && Executes(s, a.t, a.id, a.no, id)) || (a.Failing? && a.id == id && ChunkIn(s, a.t, id, a.no))
  }

  function ChunksOf(s: System, id: RunId): seq<Chunk> { if id in s.runs then s.runs[id].chunks else [] }

  function AttemptsLeft(s: System, id: RunId): int { if id in s.runs then RemainingOf(s.runs[id]) else 0 }

  function AllAttempts(s: System, id: RunId): nat {
    if id in s.runs then MaxAttempts(s.runs[id].job) * |s.runs[id].chunks| else 0
  }

  lemma NoAttemptsBack(run: Run)
    requires RunOk(run)
    ensures RemainingOf(Finalized(run)) <= RemainingOf(run) && RemainingOf(CancelledRun(run)) <= RemainingOf(run)
  {
    hide MaxAttempts, CountStatus, SumOutputs, StatusOk;
    var max := MaxAttempts(run.job);
    forall i | 0 <= i < |run.chunks| ensures Left(CancelledRun(run).chunks[i], max) <= Left(run.chunks[i], max) {
      assert ChunkOk(run.chunks[i], i + 1, max);
    }
    RemainingDrops(run.chunks, CancelledRun(run).chunks, max);
  }

  lemma ClosingGivesNoAttempts(s: System, t: TenantId, r: RunId, id: RunId)
    requires Inv(s) && id in s.runs
    ensures id in Finalize(s, t, r).runs && RemainingOf(Finalize(s, t, r).runs[id]) <= RemainingOf(s.runs[id])
    ensures id in CancelRun(s, t, r).system.runs
            && RemainingOf(CancelRun(s, t, r).system.runs[id]) <= RemainingOf(s.runs[id])
  {
    hide Inv, RunOk, Finalized, CancelledRun, RemainingOf;
    RunIsOk(s, id);
    NoAttemptsBack(s.runs[id]);
  }

  /** The actions that are none of the protocol's steps on this run leave it as it is. */
  lemma SameByOthers(s: System, a: Action, id: RunId)
    requires Inv(s) && id in s.runs && s.runs[id].chunks != []
    requires !a.Executing? && !a.Failing? && !a.Finalizing? && !a.CancellingRun? && !(a.Retrying? && a.id == id)
    ensures id in Advance(s, a).runs && Advance(s, a).runs[id] == s.runs[id]
  {
    hide Inv, RunOk, StatusOk, CreateRun, StartRun, RetryRun, FireSchedule, ChunkTasks, Next, RunKept, NoNewDone;
    RunIsOk(s, id);
    match a {
      case Creating(r, t, job, params, dryRun, key, today) =>
        if r !in s.runs { SameByCreation(s, r, t, job, params, dryRun, key, today, id); }
      case Firing(sid, now, next, r, today) => if r !in s.runs { SameByFiring(s, sid, now, next, r, today, id); }
      case Starting(t, r, planFails) => SameByStart(s, t, r, planFails, id);
      case Retrying(t, r) => KeptByRetry(s, t, r, id);
      case _ =>
    }
  }

  lemma SameByCreation(s: System, r: RunId, t: TenantId, job: Option<JobCode>, params: Params, dryRun: bool,
                       key: Option<string>, today: Date, id: RunId)
    requires id in s.runs && r !in s.runs
    ensures var s' := CreateRun(s, r, t, job, params, dryRun, key, today).system;
            id in s'.runs && s'.runs[id] == s.runs[id]
  {
    hide AnyActive, KeyTaken;
  }

  lemma SameByFiring(s: System, sid: ScheduleId, now: int, next: int, r: RunId, today: Date, id: RunId)
    requires id in s.runs && r !in s.runs
    ensures var s' := FireSchedule(s, sid, now, next, r, today); id in s'.runs && s'.runs[id] == s.runs[id]
  {
    hide CreateRun;
    if sid in s.schedules {
      var schedule := s.schedules[sid].(nextRun := next, lastRun := Some(now));
      SameByCreation(s.(schedules := s.schedules[sid := schedule]), r, schedule.tenant, schedule.job, schedule.params,
                     false, None, today, id);
    }
  }

  lemma SameByStart(s: System, t: TenantId, r: RunId, planFails: bool, id: RunId)
    requires id in s.runs && RunOk(s.runs[id]) && s.runs[id].chunks != []
    ensures id in StartRun(s, t, r, planFails).runs && StartRun(s, t, r, planFails).runs[id] == s.runs[id]
  {
    hide Started, PlanFailed, ChunkTasks, Plan, CountStatus, SumOutputs, ChunkOk;
  }

  /** Only a retry gives attempts back: once a run has chunks no other action raises what is left, and every
      recorded outcome lowers it. */
  lemma OnlyRetryRefills(s: System, a: Action, id: RunId)
    requires Inv(s) && id in s.runs && s.runs[id].chunks != [] && !(a.Retrying? && a.id == id)
    ensures AttemptsLeft(Advance(s, a), id) + (if RecordsOutcome(s, a, id) then 1 else 0) <= AttemptsLeft(s, id)
  {
    hide Inv, RemainingOf, ExecuteChunk, RecordFailure, Finalize, CancelRun, ChunkIn, StartRun, CreateRun, RetryRun;
    hide FireSchedule, Next;
    match a {
      case Executing(t, r, no) => ExecutionCosts(s, t, r, no, id);
      case Failing(t, r, no) => FailureCosts(s, t, r, no, id);
      case Finalizing(t, r) => ClosingGivesNoAttempts(s, t, r, id);
      case CancellingRun(t, r) => ClosingGivesNoAttempts(s, t, r, id);
      case _ => SameByOthers(s, a, id);
    }
  }

  lemma ExecutionCosts(s: System, t: TenantId, r: RunId, no: nat, id: RunId)
    requires Inv(s) && id in s.runs
    ensures AttemptsLeft(ExecuteChunk(s, t, r, no), id) + (if Executes(s, t, r, no, id) then 1 else 0) <=
            AttemptsLeft(s, id)
  {
    hide Inv, RemainingOf, ExecuteChunk, RunKept, ChunkIn;
    KeptByExecution(s, t, r, no, id);
    if Executes(s, t, r, no, id) { AttemptsRunOut(s, t, r, no); }
  }

  lemma FailureCosts(s: System, t: TenantId, r: RunId, no: nat, id: RunId)
    requires Inv(s) && id in s.runs
    ensures AttemptsLeft(RecordFailure(s, t, r, no), id) + (if r == id && ChunkIn(s, t, id, no) then 1 else 0) <=
            AttemptsLeft(s, id)
  {
    hide Inv, RemainingOf, ChunkAttemptFailed;
    if r == id && ChunkIn(s, t, id, no) { AttemptsRunOut(s, t, id, no); }
  }

  /** How many outcomes of the run's chunks the actions record. */
  ghost function Outcomes(s: System, actions: seq<Action>, id: RunId): nat {
    if actions == [] then 0 else
      var before := actions[..|actions| - 1];
      Outcomes(s, before, id) + (if RecordsOutcome(Reach(s, before), actions[|actions| - 1], id) then 1 else 0)
  }

  /** From any state, between retries, at most `max_attempts` outcomes per chunk are recorded, however long the
      protocol runs and however often tasks are delivered: a run cannot be kept busy for ever. */
  lemma {:induction false} OutcomesAreBounded(s: System, actions: seq<Action>, id: RunId)
    requires Inv(s) && forall a :: a in actions && a.Retrying? ==> a.id != id
    ensures Inv(Reach(s, actions))
    ensures Outcomes(s, actions, id) + AttemptsLeft(Reach(s, actions), id) <= AllAttempts(Reach(s, actions), id)
    ensures 0 <= AttemptsLeft(Reach(s, actions), id)
  {
    hide Inv, Advance, RecordsOutcome, AttemptsLeft, AllAttempts;
    if actions == [] {
      AttemptsBounded(s, id);
    } else {
      var before, a := actions[..|actions| - 1], actions[|actions| - 1];
      OutcomesAreBounded(s, before, id);
      StepKeeps(Reach(s, before), a);
      OneMoreStep(Reach(s, before), a, id, Outcomes(s, before, id));
    }
  }

  lemma AttemptsBounded(s: System, id: RunId)
    requires Inv(s)
    ensures 0 <= AttemptsLeft(s, id) <= AllAttempts(s, id)
  {
    hide Inv, Remaining, MaxAttempts, StatusOk;
    if id in s.runs {
      RunIsOk(s, id);
      RemainingBounds(s.runs[id].chunks, MaxAttempts(s.runs[id].job));
    }
  }

  lemma OneMoreStep(s: System, a: Action, id: RunId, outcomes: nat)
    requires Inv(s) && Inv(Advance(s, a)) && !(a.Retrying? && a.id == id)
    requires outcomes + AttemptsLeft(s, id) <= AllAttempts(s, id) && 0 <= AttemptsLeft(s, id)
    ensures outcomes + (if RecordsOutcome(s, a, id) then 1 else 0) + AttemptsLeft(Advance(s, a), id) <=
            AllAttempts(Advance(s, a), id)
    ensures 0 <= AttemptsLeft(Advance(s, a), id)
  {
    hide Inv, Advance, RemainingOf, RunKept, MaxAttempts;
    AttemptsBounded(Advance(s, a), id);
    if ChunksOf(s, id) == [] {
      NothingRecorded(s, a, id);
    } else {
      OnlyRetryRefills(s, a, id);
      RunsAreKept(s, a, id);
      SameAttempts(s.runs[id], Advance(s, a).runs[id]);
    }
  }

  lemma SameAttempts(a: Run, b: Run)
    requires RunKept(a, b) && a.chunks != []
    ensures a.job == b.job && |a.chunks| == |b.chunks|
  {}

  lemma NothingRecorded(s: System, a: Action, id: RunId)
    requires ChunksOf(s, id) == []
    ensures !RecordsOutcome(s, a, id)
    ensures id in s.runs ==> AllAttempts(s, id) == 0
  {}

  lemma RunIsOk(s: System, id: RunId)
    requires Inv(s) && id in s.runs
    ensures RunOk(s.runs[id])
  {}

  // ---- schedules ----

  /** A due schedule fires once: at the same time it is due no more, and it never starts a second active run. */
  lemma SchedulesFireOnce(s: System, sid: ScheduleId, now: int, next: int, next': int, id: RunId, id': RunId,
                          today: Date)
    requires Inv(s) && id !in s.runs && next > now && sid in s.schedules
    requires id' !in FireSchedule(s, sid, now, next, id, today).runs
    ensures var s' := FireSchedule(s, sid, now, next, id, today);
            FireSchedule(s', sid, now, next', id', today) == s'
            && (s.schedules[sid].job.None? || AnyActive(s, s.schedules[sid].tenant, s.schedules[sid].job.value)
                ==> s'.runs == s.runs && s'.sent == s.sent)
  {
    hide Inv;
    var s' := FireSchedule(s, sid, now, next, id, today);
    var schedule := s.schedules[sid];
    if s' != s && schedule.job.Some? {
      var moved := s.(schedules := s.schedules[sid := schedule.(nextRun := next, lastRun := Some(now))]);
      assert AnyActive(moved, schedule.tenant, schedule.job.value) <==>
             AnyActive(s, schedule.tenant, schedule.job.value);
    }
  }
}
