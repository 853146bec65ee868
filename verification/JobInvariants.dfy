/** What every run of the job protocol keeps true, however tasks are lost, repeated or reordered. */
module JobInvariants {
  import opened Common
  import opened Calendar
  import opened JobHistory
  import opened LeaveAccrual
  import opened LeaveLedger
  import LedgerInvariants
  import opened JobRuns

  // ---- one run ----

  predicate ChunkOk(c: Chunk, no: nat, max: nat) {
    && c.no == no
    && match c.status
       case ChunkPending => c.attempts < max && !c.finished
       case ChunkDone => 1 <= c.attempts <= max && !c.error && c.finished
       case ChunkFailed => c.attempts == max && c.error && c.finished
       case ChunkCancelled => c.attempts < max
  }

  predicate NoneWith(cs: seq<Chunk>, status: ChunkStatus) { forall i :: 0 <= i < |cs| ==> cs[i].status != status }

  /** The stored status, counters and output tell the truth about the chunks. */
  predicate StatusOk(run: Run) {
    var done, failed := CountStatus(run.chunks, ChunkDone), CountStatus(run.chunks, ChunkFailed);
    match run.status
    case Queued => run.chunks == [] && run.done == 0 && run.failed == 0 && run.output == ZERO && !run.error
    case Running =>
      run.chunks != [] && run.done <= done && run.failed <= failed && NoneWith(run.chunks, ChunkCancelled) && !run.error
    case RunCancelled => NoneWith(run.chunks, ChunkPending)
    case _ =>
      && NoneWith(run.chunks, ChunkPending) && NoneWith(run.chunks, ChunkCancelled)
      && run.done == done && run.failed == failed && run.done + run.failed == run.total
      && run.output == SumOutputs(run.chunks)
      && (run.status.Succeeded? <==> run.failed == 0 && !run.error)
      && (run.status.Partial? <==> run.failed > 0 && run.done > 0)
      && (run.status.RunFailed? <==> (run.failed > 0 && run.done == 0) || run.error)
      && (run.error <==> run.status.RunFailed? && run.total == 0)
  }

  predicate RunOk(run: Run) {
    && run.total == |run.chunks|
    && (forall i :: 0 <= i < |run.chunks| ==> ChunkOk(run.chunks[i], i + 1, MaxAttempts(run.job)))
    && StatusOk(run)
    && (run.finished <==> !IsActive(run.status))
  }

  // ---- counting ----

  lemma {:induction false} CountsAddUp(cs: seq<Chunk>)
    ensures CountStatus(cs, ChunkPending) + CountStatus(cs, ChunkDone) + CountStatus(cs, ChunkFailed)
            + CountStatus(cs, ChunkCancelled) == |cs|
  {
    if cs != [] { CountsAddUp(cs[..|cs| - 1]); }
  }

  lemma {:induction false} CountZero(cs: seq<Chunk>, status: ChunkStatus)
    ensures CountStatus(cs, status) == 0 <==> NoneWith(cs, status)
  {
    if cs != [] {
      CountZero(cs[..|cs| - 1], status);
      assert NoneWith(cs, status) <==> NoneWith(cs[..|cs| - 1], status) && cs[|cs| - 1].status != status;
    }
  }

  lemma {:induction false} CountUpdate(cs: seq<Chunk>, i: nat, c: Chunk, status: ChunkStatus)
    requires i < |cs|
    ensures CountStatus(cs[i := c], status) ==
            CountStatus(cs, status) - (if cs[i].status == status then 1 else 0) + (if c.status == status then 1 else 0)
  {
    var n := |cs| - 1;
    if i == n {
      assert cs[i := c][..n] == cs[..n];
    } else {
      assert cs[i := c][..n] == cs[..n][i := c];
      CountUpdate(cs[..n], i, c, status);
    }
  }

  /** Chunks that keep their status where it is `status` keep its count. */
  lemma {:induction false} CountSameStatus(cs: seq<Chunk>, ds: seq<Chunk>, status: ChunkStatus)
    requires |cs| == |ds| && forall i :: 0 <= i < |cs| ==> (cs[i].status == status <==> ds[i].status == status)
    ensures CountStatus(cs, status) == CountStatus(ds, status)
  {
    if cs != [] { CountSameStatus(cs[..|cs| - 1], ds[..|ds| - 1], status); }
  }

  // ---- the steps of one run ----

  lemma StartedOk(run: Run, ranges: seq<Range>)
    requires RunOk(run) && run.status.Queued?
    ensures RunOk(Started(run, ranges)) && RunOk(PlanFailed(run)) && run.chunks == []
  {}

  /** One more chunk done or failed leaves the stored counters below the true counts. */
  lemma CountsGrow(run: Run, i: nat, c: Chunk)
    requires i < |run.chunks| && run.chunks[i].status.ChunkPending?
    ensures CountStatus(run.chunks, ChunkDone) <= CountStatus(run.chunks[i := c], ChunkDone)
    ensures CountStatus(run.chunks, ChunkFailed) <= CountStatus(run.chunks[i := c], ChunkFailed)
  {
    CountUpdate(run.chunks, i, c, ChunkDone);
    CountUpdate(run.chunks, i, c, ChunkFailed);
  }

  /** Replacing one pending chunk of a running run by a sound one in any state but cancelled. */
  lemma ChunkReplaced(run: Run, no: nat, c: Chunk)
    requires RunOk(run) && run.status.Running? && 1 <= no <= |run.chunks| && run.chunks[no - 1].status.ChunkPending?
    requires ChunkOk(c, no, MaxAttempts(run.job)) && !c.status.ChunkCancelled?
    ensures RunOk(run.(chunks := run.chunks[no - 1 := c]))
  {
    hide ChunkOk, CountStatus, MaxAttempts;
    CountsGrow(run, no - 1, c);
  }

  lemma ChunkStepOk(run: Run, no: nat, output: Counts)
    requires RunOk(run) && run.status.Running? && 1 <= no <= |run.chunks| && run.chunks[no - 1].status.ChunkPending?
    ensures RunOk(ChunkSucceeded(run, no, output)) && RunOk(ChunkAttemptFailed(run, no))
  {
    hide ChunkOk, StatusOk;
    assert ChunkOk(run.chunks[no - 1], no, MaxAttempts(run.job));
    ChunkMoves(run.chunks[no - 1], no, MaxAttempts(run.job), output);
    ChunkReplaced(run, no, ChunkSucceeded(run, no, output).chunks[no - 1]);
    ChunkReplaced(run, no, ChunkAttemptFailed(run, no).chunks[no - 1]);
  }

  lemma ChunkMoves(c: Chunk, no: nat, max: nat, output: Counts)
    requires ChunkOk(c, no, max) && c.status.ChunkPending?
    ensures ChunkOk(c.(status := ChunkDone, attempts := c.attempts + 1, error := false, output := output,
                       finished := true), no, max)
    ensures var last := c.attempts + 1 >= max;
            ChunkOk(c.(attempts := c.attempts + 1, error := true, status := if last then ChunkFailed else c.status,
                       finished := if last then true else c.finished), no, max)
  {}

  lemma FinalizedOk(run: Run)
    requires RunOk(run) && run.status.Running?
    ensures RunOk(Finalized(run))
    ensures Finalized(run).status.Running? <==> !NoneWith(run.chunks, ChunkPending)
  {
    hide ChunkOk;
    CountsAddUp(run.chunks);
    CountZero(run.chunks, ChunkPending);
    CountZero(run.chunks, ChunkCancelled);
  }

  lemma CancelledOk(run: Run)
    requires RunOk(run) && IsActive(run.status)
    ensures RunOk(CancelledRun(run))
  {}

  lemma RetriedOk(run: Run)
    requires RunOk(run) && (run.status.RunFailed? || run.status.Partial?)
    ensures RunOk(Retried(run))
  {
    CountSameStatus(run.chunks, Retried(run).chunks, ChunkDone);
  }

  /** A retry gives a queued run without chunks or a running one with a pending chunk. */
  lemma RetryHasWork(run: Run)
    requires RunOk(run) && (run.status.RunFailed? || run.status.Partial?)
    ensures var r := Retried(run);
            (r.status.Queued? && r.chunks == []) || (r.status.Running? && !NoneWith(r.chunks, ChunkPending))
  {
    CountZero(run.chunks, ChunkFailed);
    if run.total > 0 {
      var i :| 0 <= i < |run.chunks| && run.chunks[i].status.ChunkFailed?;
      assert Retried(run).chunks[i].status.ChunkPending?;
    }
  }

  // ---- the whole system ----

  predicate Compatible(r: RunId, a: Run, q: RunId, b: Run) {
    r != q && a.tenant == b.tenant ==>
      && !(a.job == b.job && IsActive(a.status) && IsActive(b.status))
      && !(a.key.Some? && a.key == b.key)
  }

  predicate TaskKnown(s: System, task: Task) {
    task.run in s.runs && s.runs[task.run].tenant == task.tenant
    && (task.ChunkTask? ==> 1 <= task.no <= |s.runs[task.run].chunks|)
  }

  ghost predicate Inv(s: System) {
    && (forall r :: r in s.runs ==> RunOk(s.runs[r]))
    && (forall r, q :: r in s.runs && q in s.runs ==> Compatible(r, s.runs[r], q, s.runs[q]))
    && (forall task :: task in s.sent ==> TaskKnown(s, task))
    && (forall t :: t in s.ledgers ==> LedgerInvariants.Inv(s.ledgers[t]))
  }

  /** A run of the system changes in place, taking no name another run has. */
  lemma RunChangeKeeps(s: System, id: RunId, run: Run, tasks: set<Task>)
    requires Inv(s) && RunOk(run)
    requires id in s.runs ==> run.tenant == s.runs[id].tenant && |run.chunks| >= |s.runs[id].chunks|
    requires forall q :: q in s.runs ==> Compatible(id, run, q, s.runs[q])
    requires forall task :: task in tasks ==> TaskKnown(WithRun(s, id, run), task)
    ensures Inv(Send(WithRun(s, id, run), tasks))
  {
    hide RunOk, LedgerInvariants.Inv;
    var s' := Send(WithRun(s, id, run), tasks);
    forall r, q | r in s'.runs && q in s'.runs ensures Compatible(r, s'.runs[r], q, s'.runs[q]) {
      if r != id && q != id { assert Compatible(r, s.runs[r], q, s.runs[q]); }
      else if r == id { if q != id { assert Compatible(id, run, q, s.runs[q]); } }
      else { assert Compatible(id, run, r, s.runs[r]); }
    }
    forall task | task in s'.sent ensures TaskKnown(s', task) {
      if task in s.sent { assert TaskKnown(s, task); }
    }
  }

  /** A run that stays active, or ends, keeps its place beside the others. */
  lemma StaysCompatible(s: System, id: RunId, run: Run)
    requires Inv(s) && id in s.runs
    requires run.tenant == s.runs[id].tenant && run.job == s.runs[id].job && run.key == s.runs[id].key
    requires IsActive(run.status) ==> IsActive(s.runs[id].status) || !AnyActive(s, run.tenant, run.job)
    ensures forall q :: q in s.runs ==> Compatible(id, run, q, s.runs[q])
  {
    hide RunOk, LedgerInvariants.Inv;
    forall q | q in s.runs ensures Compatible(id, run, q, s.runs[q]) {
      assert Compatible(id, s.runs[id], q, s.runs[q]);
    }
  }

  lemma ChangeKeeps(s: System, id: RunId, run: Run, tasks: set<Task>)
    requires Inv(s) && id in s.runs && RunOk(run)
    requires run.tenant == s.runs[id].tenant && run.job == s.runs[id].job && run.key == s.runs[id].key
    requires |run.chunks| >= |s.runs[id].chunks|
    requires IsActive(run.status) ==> IsActive(s.runs[id].status) || !AnyActive(s, run.tenant, run.job)
    requires forall task :: task in tasks ==> TaskKnown(WithRun(s, id, run), task)
    ensures Inv(Send(WithRun(s, id, run), tasks))
  {
    hide Inv, RunOk;
    StaysCompatible(s, id, run);
    RunChangeKeeps(s, id, run, tasks);
  }

  lemma SendNothing(s: System)
    ensures Send(s, {}) == s
  {
    assert s.sent + {} == s.sent;
  }

  lemma TasksKnown(s: System, id: RunId, run: Run)
    requires RunOk(run)
    ensures forall task :: task in ChunkTasks(run.tenant, id, run.chunks) ==> TaskKnown(WithRun(s, id, run), task)
  {}

  lemma CreateKeeps(s: System, id: RunId, t: TenantId, job: Option<JobCode>, params: Params, dryRun: bool,
                    key: Option<string>, today: Date)
    requires Inv(s) && id !in s.runs
    ensures Inv(CreateRun(s, id, t, job, params, dryRun, key, today).system)
  {
    hide LedgerInvariants.Inv;
    if job.Some? && params.AsOf? && !KeyTaken(s, t, key) && !AnyActive(s, t, job.value) {
      var run := NewRun(t, job.value, if params.date.Some? then params.date.value else today, dryRun, key);
      assert RunOk(run);
      forall q | q in s.runs ensures Compatible(id, run, q, s.runs[q]) {
        assert key.Some? ==> !HasRunKey(s, q, t, key);
      }
      RunChangeKeeps(s, id, run, {StartTask(t, id)});
    }
  }

  lemma StartKeeps(s: System, t: TenantId, id: RunId, planFails: bool)
    requires Inv(s)
    ensures Inv(StartRun(s, t, id, planFails))
  {
    hide Plan, LedgerInvariants.Inv, ChunkTasks, RunOk, TaskKnown, NewChunks;
    if RunIn(s, t, id, Queued) {
      var ranges := Plan(StoreOf(s, t).employees, s.runs[id].asOf);
      var run := Started(s.runs[id], ranges);
      StartedOk(s.runs[id], ranges);
      TasksKnown(s, id, run);
      ChangeKeeps(s, id, run, ChunkTasks(t, id, run.chunks));
      ChangeKeeps(s, id, PlanFailed(s.runs[id]), {});
      SendNothing(WithRun(s, id, PlanFailed(s.runs[id])));
    }
  }

  lemma ChunkKeeps(s: System, t: TenantId, id: RunId, no: nat)
    requires Inv(s)
    ensures Inv(ExecuteChunk(s, t, id, no)) && Inv(RecordFailure(s, t, id, no))
  {
    hide RunOk, LedgerInvariants.Inv, RunChunk;
    if ChunkIn(s, t, id, no) {
      var run := s.runs[id];
      PendingMeansRunning(run, no);
      var r := run.chunks[no - 1].range;
      var (st, counts) := RunChunk(run.job, StoreOf(s, t), run.asOf, r.first, r.last);
      ChunkStepOk(run, no, counts);
      ChangeKeeps(s, id, ChunkSucceeded(run, no, counts), {});
      SendNothing(WithRun(s, id, ChunkSucceeded(run, no, counts)));
      ChangeKeeps(s, id, ChunkAttemptFailed(run, no), {});
      SendNothing(WithRun(s, id, ChunkAttemptFailed(run, no)));
      JobOnLedger(s, t, run.job, run.asOf, r.first, r.last);
    }
  }

  lemma PendingMeansRunning(run: Run, no: nat)
    requires RunOk(run) && 1 <= no <= |run.chunks| && run.chunks[no - 1].status.ChunkPending?
    ensures run.status.Running?
  {}

  lemma JobOnLedger(s: System, t: TenantId, job: JobCode, asOf: Date, lo: EmpId, hi: EmpId)
    requires Inv(s)
    ensures LedgerInvariants.Inv(LedgerOf(s, t).(store := RunChunk(job, StoreOf(s, t), asOf, lo, hi).0))
  {
    hide LedgerInvariants.Inv, RunChunk, RunOk;
    LedgerInvariants.InitInv();
    LedgerInvariants.JobKeeps(LedgerOf(s, t), job, asOf, lo, hi);
  }

  lemma FinalizeKeeps(s: System, t: TenantId, id: RunId)
    requires Inv(s)
    ensures Inv(Finalize(s, t, id))
  {
    hide LedgerInvariants.Inv, RunOk;
    if RunIn(s, t, id, Running) {
      FinalizedOk(s.runs[id]);
      ChangeKeeps(s, id, Finalized(s.runs[id]), {});
      SendNothing(WithRun(s, id, Finalized(s.runs[id])));
    }
  }

  lemma CancelKeeps(s: System, t: TenantId, id: RunId)
    requires Inv(s)
    ensures Inv(CancelRun(s, t, id).system)
  {
    hide LedgerInvariants.Inv, RunOk;
    if id in s.runs && IsActive(s.runs[id].status) {
      CancelledOk(s.runs[id]);
      ChangeKeeps(s, id, CancelledRun(s.runs[id]), {});
      SendNothing(WithRun(s, id, CancelledRun(s.runs[id])));
    }
  }

  lemma RetryKeeps(s: System, t: TenantId, id: RunId)
    requires Inv(s)
    ensures Inv(RetryRun(s, t, id).system)
  {
    hide LedgerInvariants.Inv, RunOk, ChunkTasks;
    if RetryRun(s, t, id).result.Ok? {
      var run := Retried(s.runs[id]);
      RetriedOk(s.runs[id]);
      TasksKnown(s, id, run);
      ChangeKeeps(s, id, run, if run.total == 0 then {StartTask(t, id)} else ChunkTasks(t, id, run.chunks));
    }
  }

  lemma ResendKeeps(s: System, t: TenantId, id: RunId)
    requires Inv(s)
    ensures Inv(Requeue(s, t, id)) && Inv(Resume(s, t, id))
  {
    hide LedgerInvariants.Inv, RunOk, ChunkTasks;
    if id in s.runs && s.runs[id].tenant == t {
      TasksKnown(s, id, s.runs[id]);
      assert WithRun(s, id, s.runs[id]) == s;
      ChangeSame(s, id, {StartTask(t, id)});
      ChangeSame(s, id, ChunkTasks(t, id, s.runs[id].chunks));
    }
  }

  lemma ChangeSame(s: System, id: RunId, tasks: set<Task>)
    requires Inv(s) && id in s.runs
    requires forall task :: task in tasks ==> TaskKnown(s, task)
    ensures Inv(Send(s, tasks))
  {
    hide LedgerInvariants.Inv, RunOk, Compatible;
  }

  lemma LeaveKeeps(s: System, t: TenantId, e: Event)
    requires Inv(s)
    ensures Inv(s.(ledgers := s.ledgers[t := Next(LedgerOf(s, t), e)]))
  {
    hide LedgerInvariants.Inv, Next, RunOk;
    LedgerInvariants.InitInv();
    LedgerInvariants.NextKeeps(LedgerOf(s, t), e);
  }

  /** The invariant holds after every action, whoever takes it and however tasks were delivered. */
  lemma StepKeeps(s: System, a: Action)
    requires Inv(s)
    ensures Inv(Advance(s, a))
  {
    hide Inv, CreateRun, StartRun, ExecuteChunk, RecordFailure, Finalize, CancelRun, RetryRun, Requeue, Resume, Next;
    match a {
      case Creating(id, t, job, params, dryRun, key, today) =>
        if id !in s.runs { CreateKeeps(s, id, t, job, params, dryRun, key, today); }
      case Starting(t, id, planFails) => StartKeeps(s, t, id, planFails);
      case Executing(t, id, no) => ChunkKeeps(s, t, id, no);
      case Failing(t, id, no) => ChunkKeeps(s, t, id, no);
      case Finalizing(t, id) => FinalizeKeeps(s, t, id);
      case CancellingRun(t, id) => CancelKeeps(s, t, id);
      case Retrying(t, id) => RetryKeeps(s, t, id);
      case Scheduling(sid, schedule) => SchedulesDoNotMatter(s, sid, schedule);
      case Firing(sid, now, next, id, today) =>
        if id !in s.runs && sid in s.schedules {
          var schedule := s.schedules[sid].(nextRun := next, lastRun := Some(now));
          SchedulesDoNotMatter(s, sid, schedule);
          CreateKeeps(s.(schedules := s.schedules[sid := schedule]), id, schedule.tenant, schedule.job, schedule.params,
                      false, None, today);
        }
      case Requeueing(t, id) => ResendKeeps(s, t, id);
      case Resuming(t, id) => ResendKeeps(s, t, id);
      case Leave(t, event) => LeaveKeeps(s, t, event);
    }
  }

  lemma SchedulesDoNotMatter(s: System, sid: ScheduleId, schedule: Schedule)
    requires Inv(s)
    ensures Inv(s.(schedules := s.schedules[sid := schedule]))
  {
    hide LedgerInvariants.Inv, RunOk, Compatible;
  }

  /** The invariant holds in every state any sequence of actions leads to. */
  lemma {:induction false} AlwaysInv(actions: seq<Action>)
    ensures Inv(Reach(INITIAL, actions))
  {
    if actions != [] {
      AlwaysInv(actions[..|actions| - 1]);
      StepKeeps(Reach(INITIAL, actions[..|actions| - 1]), actions[|actions| - 1]);
    }
  }
}
