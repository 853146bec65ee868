/** The job service over its tables: each method is one transaction, proved to take the system to the state
    its function in `JobRuns` describes. A worker is given only tasks that were sent. */
module JobRunner {
  import opened Common
  import opened Calendar
  import opened LeaveAccrual
  import opened LeaveLedger
  import opened JobRuns
  import opened JobInvariants

  /** What a scheduler tick finds to do. A fired schedule brings the id of the run it may create. */
  datatype Work =
    | DueSchedule(sid: ScheduleId, run: RunId, next: int, today: Date)
    | QueuedRun(t: TenantId, id: RunId)
    | StalledRun(t: TenantId, id: RunId)

  function ActionOf(w: Work, now: int): Action {
    match w
    case DueSchedule(sid, run, next, today) => Firing(sid, now, next, run, today)
    case QueuedRun(t, id) => Requeueing(t, id)
    case StalledRun(t, id) => Resuming(t, id)
  }

  function ActionsOf(work: seq<Work>, now: int): seq<Action> {
    seq(|work|, i requires 0 <= i < |work| => ActionOf(work[i], now))
  }

  /** What a tick reports: the runs created, the schedules whose run was refused, and the runs sent again. */
  datatype TickResult = TickResult(created: seq<RunId>, skipped: seq<ScheduleId>, requeued: seq<RunId>,
                                   resumed: seq<RunId>) {
    function Plus(r: TickResult): TickResult {
      TickResult(created + r.created, skipped + r.skipped, requeued + r.requeued, resumed + r.resumed)
    }
  }

  const NOTHING := TickResult([], [], [], [])

  predicate IsDue(s: System, sid: ScheduleId, now: int) {
    sid in s.schedules && s.schedules[sid].active && s.schedules[sid].nextRun <= now
  }

  /** What one work item adds to the report; a schedule of an unknown job moves on without one. */
  ghost function Reported(s: System, w: Work, now: int): TickResult {
    match w
    case DueSchedule(sid, run, next, today) =>
      if run in s.runs || !IsDue(s, sid, now) || next <= now || s.schedules[sid].job.None? then NOTHING
      else
        var sch := s.schedules[sid];
        if CreateRun(s, run, sch.tenant, sch.job, sch.params, false, None, today).result.Ok? then
          NOTHING.(created := [run])
        else NOTHING.(skipped := [sid])
    case QueuedRun(t, id) => if RunIn(s, t, id, Queued) then NOTHING.(requeued := [id]) else NOTHING
    case StalledRun(t, id) => if RunIn(s, t, id, Running) then NOTHING.(resumed := [id]) else NOTHING
  }

  ghost function TickReport(s: System, work: seq<Work>, now: int): TickResult {
    if work == [] then NOTHING else
      var before := work[..|work| - 1];
      TickReport(s, before, now).Plus(Reported(Reach(s, ActionsOf(before, now)), work[|work| - 1], now))
  }

  function Power2(n: nat): nat { if n == 0 then 1 else 2 * Power2(n - 1) }

  /** Seconds to the next try after a failed one, growing twofold; none after the last. */
  function RetryDelay(attempts: nat, max: nat): Option<nat>
    requires attempts > 0
  {
    if attempts >= max then None else Some(RETRY_BASE_SECONDS * Power2(attempts - 1))
  }

  /** The tables and the run once a chunk is done. */
  predicate IsWork(run: Run, no: nat, store: Store, store': Store, run': Run)
    requires 1 <= no <= |run.chunks|
  {
    var r := run.chunks[no - 1].range;
    var (st, counts) := RunChunk(run.job, store, run.asOf, r.first, r.last);
    store' == st && run' == ChunkSucceeded(run, no, counts)
  }

  class Runner {
    var runs: map<RunId, Run>
    var schedules: map<ScheduleId, Schedule>
    var sent: set<Task>
    var ledgers: map<TenantId, Ledger>

    function State(): System
      reads this
    {
      System(runs, schedules, sent, ledgers)
    }

    ghost predicate Valid()
      reads this
    {
      Inv(State())
    }

    constructor ()
      ensures State() == INITIAL && Valid()
    {
      runs, schedules, sent, ledgers := map[], map[], {}, map[];
      new;
      AlwaysInv([]);
    }

    /** `create_run` */
    method CreateRun(id: RunId, t: TenantId, job: Option<JobCode>, params: Params, dryRun: bool, key: Option<string>,
                     today: Date)
      returns (r: Result<RunId, JobError>)
      requires Valid() && id !in runs
      modifies this`runs, this`sent
      ensures Valid() && Reply(r, State()) == JobRuns.CreateRun(old(State()), id, t, job, params, dryRun, key, today)
    {
      CreateKeeps(State(), id, t, job, params, dryRun, key, today);
      hide RunOk, TaskKnown, Compatible;
      if job.None? { return Err(JobUnknown); }
      if key.Some? && key.value != "" && KeyTaken(State(), t, key) {
        var existing :| existing in runs && HasRunKey(State(), existing, t, key);
        OneRunPerKey(State(), t, key, existing);
        return Ok(existing);
      }
      if params.Malformed? { return Err(ParamsInvalid); }
      var date := if params.date.Some? then params.date.value else today;
      if date > today { return Err(AsOfInFuture); }
      if AnyActive(State(), t, job.value) || KeyTaken(State(), t, key) { return Err(AlreadyRunning); }
      runs := runs[id := NewRun(t, job.value, date, dryRun, key)];
      sent := sent + {StartTask(t, id)};
      return Ok(id);
    }

    /** The chunks of a plan, numbered in its order. */
    static method NumberChunks(planned: seq<Range>) returns (chunks: seq<Chunk>)
      ensures chunks == NewChunks(planned)
    {
      chunks := [];
      for i := 0 to |planned|
        invariant chunks == NewChunks(planned[..i])
      {
        assert planned[..i + 1][..i] == planned[..i];
        chunks := chunks + [Chunk(i + 1, planned[i], ChunkPending, 0, ZERO, false, false)];
      }
      assert planned[..|planned|] == planned;
    }

    /** `start_run` */
    method StartRun(t: TenantId, id: RunId, planFails: bool)
      requires Valid() && StartTask(t, id) in sent
      modifies this`runs, this`sent
      ensures Valid() && State() == JobRuns.StartRun(old(State()), t, id, planFails)
    {
      StartKeeps(State(), t, id, planFails);
      QueuedHasNoChunks(State(), t, id);
      hide Plan, StoreOf, Inv, NewChunks, ChunkTasks;
      if id !in runs || runs[id].tenant != t || runs[id].status != Queued { return; }
      var run := runs[id];
      if planFails {
        runs := runs[id := run.(status := RunFailed, error := true, finished := true)];
        return;
      }
      var chunks := NumberChunks(Plan(StoreOf(State(), t).employees, run.asOf));
      run := run.(status := Running, total := |chunks|, chunks := chunks);
      if chunks == [] {
        run := run.(status := Succeeded, finished := true, output := ZERO);
      }
      runs := runs[id := run];
      sent := sent + ChunkTasks(t, id, chunks);
    }

    /** The work of one chunk: the tables after it, and the run with the chunk done. */
    static method WorkOn(run: Run, no: nat, store: Store) returns (store': Store, run': Run)
      requires 1 <= no <= |run.chunks|
      ensures IsWork(run, no, store, store', run')
    {
      hide RunChunk;
      var chunk := run.chunks[no - 1];
      var counts;
      if run.job == AccrualJob {
        store', counts := Accrue(store, chunk.range.first, chunk.range.last, run.asOf);
      } else {
        store', counts := ExpireCarryOver(store, chunk.range.first, chunk.range.last, run.asOf);
      }
      chunk := chunk.(status := ChunkDone, attempts := chunk.attempts + 1, error := false, output := counts,
                      finished := true);
      run' := run.(chunks := run.chunks[no - 1 := chunk]);
    }

    /** Whether the delivered chunk is there and pending. */
    method IsPending(t: TenantId, id: RunId, no: nat) returns (found: bool)
      requires ChunkTask(t, id, no) in sent
      ensures found <==> ChunkIn(State(), t, id, no)
    {
      if id !in runs || runs[id].tenant != t || !(1 <= no <= |runs[id].chunks|) { return false; }
      return runs[id].chunks[no - 1].status == ChunkPending;
    }

    /** `_execute_chunk`: the business change goes with the chunk's status, or, in a dry run, away. */
    method ExecuteChunk(t: TenantId, id: RunId, no: nat) returns (executed: bool)
      requires Valid() && ChunkTask(t, id, no) in sent
      modifies this`runs, this`ledgers
      ensures Valid() && State() == JobRuns.ExecuteChunk(old(State()), t, id, no)
      ensures executed <==> ChunkIn(old(State()), t, id, no) && old(runs)[id].status.Running?
    {
      hide Inv, IsWork, LedgerOf, JobRuns.ExecuteChunk;
      executed := IsPending(t, id, no);
      if executed { executed := runs[id].status == Running; }
      if executed {
        var ledger := LedgerOf(State(), t);
        var store, run := WorkOn(runs[id], no, ledger.store);
        Executed(State(), t, id, no, store, run);
        if !runs[id].dryRun {
          ledgers := ledgers[t := ledger.(store := store)];
        }
        runs := runs[id := run];
      } else {
        NotExecuted(State(), t, id, no);
      }
      ExecutionKeeps(old(State()), t, id, no);
    }

    /** One failed try of a chunk: the run with it noted, and when to try again. */
    static method NoteFailure(run: Run, no: nat) returns (run': Run, retryIn: Option<nat>)
      requires 1 <= no <= |run.chunks|
      ensures run' == ChunkAttemptFailed(run, no)
      ensures retryIn == RetryDelay(run.chunks[no - 1].attempts + 1, MaxAttempts(run.job))
    {
      hide MaxAttempts;
      var chunk := run.chunks[no - 1];
      chunk := chunk.(attempts := chunk.attempts + 1, error := true);
      var final := chunk.attempts >= MaxAttempts(run.job);
      if final {
        chunk := chunk.(status := ChunkFailed, finished := true);
      }
      run' := run.(chunks := run.chunks[no - 1 := chunk]);
      retryIn := if final then None else Some(RETRY_BASE_SECONDS * Power2(chunk.attempts - 1));
    }

    /** `_record_failure`: the result says when to try again. */
    method RecordFailure(t: TenantId, id: RunId, no: nat) returns (retryIn: Option<nat>)
      requires Valid() && ChunkTask(t, id, no) in sent
      modifies this`runs
      ensures Valid() && State() == JobRuns.RecordFailure(old(State()), t, id, no)
      ensures retryIn == if !ChunkIn(old(State()), t, id, no) then None else
                           RetryDelay(old(runs)[id].chunks[no - 1].attempts + 1, MaxAttempts(old(runs)[id].job))
    {
      FailureKeeps(State(), t, id, no);
      hide Inv, MaxAttempts, ChunkAttemptFailed, RetryDelay;
      retryIn := None;
      var found := IsPending(t, id, no);
      if found {
        var run;
        run, retryIn := NoteFailure(runs[id], no);
        runs := runs[id := run];
      }
    }

    /** The number of chunks per status, as the GROUP BY of `finalize` gives them. */
    method CountChunks(chunks: seq<Chunk>) returns (pending: nat, done: nat, failed: nat)
      ensures pending == CountStatus(chunks, ChunkPending)
      ensures done == CountStatus(chunks, ChunkDone) && failed == CountStatus(chunks, ChunkFailed)
    {
      pending, done, failed := 0, 0, 0;
      for i := 0 to |chunks|
        invariant pending == CountStatus(chunks[..i], ChunkPending)
        invariant done == CountStatus(chunks[..i], ChunkDone)
        invariant failed == CountStatus(chunks[..i], ChunkFailed)
      {
        assert chunks[..i + 1][..i] == chunks[..i];
        match chunks[i].status {
          case ChunkPending => pending := pending + 1;
          case ChunkDone => done := done + 1;
          case ChunkFailed => failed := failed + 1;
          case ChunkCancelled =>
        }
      }
      assert chunks[..|chunks|] == chunks;
    }

    /** The loop that adds the outputs of the successful chunks up. */
    method Totals(chunks: seq<Chunk>) returns (totals: Counts)
      ensures totals == SumOutputs(chunks)
    {
      totals := ZERO;
      for i := 0 to |chunks|
        invariant totals == SumOutputs(chunks[..i])
      {
        assert chunks[..i + 1][..i] == chunks[..i];
        if chunks[i].status == ChunkDone { totals := totals.Plus(chunks[i].output); }
      }
      assert chunks[..|chunks|] == chunks;
    }

    /** `finalize` */
    method Finalize(t: TenantId, id: RunId)
      requires Valid()
      modifies this`runs
      ensures Valid() && State() == JobRuns.Finalize(old(State()), t, id)
    {
      FinalizeKeeps(State(), t, id);
      hide CountStatus, SumOutputs, Inv;
      if id !in runs || runs[id].tenant != t || runs[id].status != Running { return; }
      var run := runs[id];
      var pending, done, failed := CountChunks(run.chunks);
      run := run.(done := done, failed := failed);
      if pending != 0 {
        runs := runs[id := run];
        return;
      }
      var totals := Totals(run.chunks);
      run := run.(output := totals, finished := true);
      if failed == 0 {
        run := run.(status := Succeeded);
      } else if done != 0 {
        run := run.(status := Partial);
      } else {
        run := run.(status := RunFailed);
      }
      runs := runs[id := run];
    }

    /** `run_chunk`, when no other transaction comes between its own: `raises` says whether the chunk's work fails. */
    method RunOneChunk(t: TenantId, id: RunId, no: nat, raises: bool) returns (retryIn: Option<nat>)
      requires Valid() && ChunkTask(t, id, no) in sent
      modifies this`runs, this`ledgers
      ensures Valid() && State() == Deliver(old(State()), t, id, no, raises)
      ensures retryIn.Some? ==> raises
    {
      hide Inv, JobRuns.ExecuteChunk, JobRuns.RecordFailure, JobRuns.Finalize;
      if raises {
        retryIn := RecordFailure(t, id, no);
        Finalize(t, id);
        return;
      }
      NotExecuted(State(), t, id, no);
      var executed := ExecuteChunk(t, id, no);
      if executed { Finalize(t, id); }
      return None;
    }

    /** `cancel_run` */
    method CancelRun(t: TenantId, id: RunId) returns (r: Result<RunId, JobError>)
      requires Valid()
      modifies this`runs
      ensures Valid() && Reply(r, State()) == JobRuns.CancelRun(old(State()), t, id)
    {
      CancelKeeps(State(), t, id);
      hide Inv;
      if id !in runs || runs[id].tenant != t { return Err(RunNotFound); }
      if !IsActive(runs[id].status) { return Err(NotActive); }
      var chunks := CancelPending(runs[id].chunks);
      runs := runs[id := runs[id].(chunks := chunks, status := RunCancelled, finished := true)];
      return Ok(id);
    }

    /** `retry_run` */
    method RetryRun(t: TenantId, id: RunId) returns (r: Result<RunId, JobError>)
      requires Valid()
      modifies this`runs, this`sent
      ensures Valid() && Reply(r, State()) == JobRuns.RetryRun(old(State()), t, id)
    {
      RetryKeeps(State(), t, id);
      hide AnyActive, Inv;
      if id !in runs || runs[id].tenant != t { return Err(RunNotFound); }
      var run := runs[id];
      if run.status != RunFailed && run.status != Partial { return Err(NotRetryable); }
      if AnyActive(State(), t, run.job) { return Err(AlreadyRunning); }
      var chunks := ResetFailed(run.chunks);
      run := run.(chunks := chunks, status := if run.total > 0 then Running else Queued, error := false,
                  finished := false, failed := 0);
      runs := runs[id := run];
      if run.total == 0 {
        sent := sent + {StartTask(t, id)};
      } else {
        sent := sent + ChunkTasks(t, id, chunks);
      }
      return Ok(id);
    }

    /** `_fire_schedule`: moves the schedule on, then starts a run of a known job unless that is refused. */
    method FireSchedule(sid: ScheduleId, now: int, next: int, id: RunId, today: Date) returns (result: TickResult)
      requires Valid() && id !in runs && next > now
      modifies this`runs, this`sent, this`schedules
      ensures Valid() && State() == JobRuns.FireSchedule(old(State()), sid, now, next, id, today)
      ensures result == Reported(old(State()), DueSchedule(sid, id, next, today), now)
    {
      if sid !in schedules || !schedules[sid].active || schedules[sid].nextRun > now { return NOTHING; }
      var schedule := schedules[sid].(nextRun := next, lastRun := Some(now));
      SchedulesDoNotMatter(State(), sid, schedule);
      SchedulesDoNotDecide(State(), sid, schedule, id, schedule.tenant, schedule.job, schedule.params, today);
      hide Inv;
      schedules := schedules[sid := schedule];
      if schedule.job.None? { return NOTHING; }
      var r := CreateRun(id, schedule.tenant, schedule.job, schedule.params, false, None, today);
      return if r.Ok? then NOTHING.(created := [id]) else NOTHING.(skipped := [sid]);
    }

    /** `_requeue` */
    method Requeue(t: TenantId, id: RunId) returns (result: TickResult)
      requires Valid()
      modifies this`sent
      ensures Valid() && State() == JobRuns.Requeue(old(State()), t, id)
      ensures result == Reported(old(State()), QueuedRun(t, id), 0)
    {
      ResendKeeps(State(), t, id);
      hide Inv;
      if id !in runs || runs[id].tenant != t || runs[id].status != Queued { return NOTHING; }
      sent := sent + {StartTask(t, id)};
      return NOTHING.(requeued := [id]);
    }

    /** `_resume` */
    method Resume(t: TenantId, id: RunId) returns (result: TickResult)
      requires Valid()
      modifies this`sent
      ensures Valid() && State() == JobRuns.Resume(old(State()), t, id)
      ensures result == Reported(old(State()), StalledRun(t, id), 0)
    {
      ResendKeeps(State(), t, id);
      hide Inv;
      if id !in runs || runs[id].tenant != t || runs[id].status != Running { return NOTHING; }
      sent := sent + ChunkTasks(t, id, runs[id].chunks);
      return NOTHING.(resumed := [id]);
    }

    /** `tick`, as the one replica that holds the lock: the work items in order. */
    method Tick(work: seq<Work>, now: int) returns (result: TickResult)
      requires Valid()
      requires forall w :: w in work && w.DueSchedule? ==> w.next > now
      modifies this`runs, this`sent, this`schedules
      ensures Valid() && State() == Reach(old(State()), ActionsOf(work, now))
      ensures result == TickReport(old(State()), work, now)
    {
      hide Inv, Advance, Reported;
      result := NOTHING;
      ghost var start := State();
      for i := 0 to |work|
        invariant Valid() && State() == Reach(start, ActionsOf(work[..i], now))
        invariant result == TickReport(start, work[..i], now)
      {
        OneMoreAction(start, work, i, now);
        assert work[..i + 1][..i] == work[..i];
        var one := Handle(work[i], now);
        result := result.Plus(one);
      }
      assert work[..|work|] == work;
    }

    method Handle(w: Work, now: int) returns (result: TickResult)
      requires Valid() && (w.DueSchedule? ==> w.next > now)
      modifies this`runs, this`sent, this`schedules
      ensures Valid() && State() == Advance(old(State()), ActionOf(w, now))
      ensures result == Reported(old(State()), w, now)
    {
      hide Inv, JobRuns.FireSchedule, JobRuns.CreateRun, ChunkTasks;
      match w {
        case DueSchedule(sid, run, next, today) =>
          if run in runs { return NOTHING; }
          result := FireSchedule(sid, now, next, run, today);
        case QueuedRun(t, id) => result := Requeue(t, id);
        case StalledRun(t, id) => result := Resume(t, id);
      }
    }
  }

  lemma NotExecuted(s: System, t: TenantId, id: RunId, no: nat)
    ensures !(ChunkIn(s, t, id, no) && s.runs[id].status.Running?) ==> ExecuteChunk(s, t, id, no) == s
  {}

  lemma Executed(s: System, t: TenantId, id: RunId, no: nat, store: Store, run: Run)
    requires ChunkIn(s, t, id, no) && s.runs[id].status.Running?
    requires IsWork(s.runs[id], no, LedgerOf(s, t).store, store, run)
    ensures var runs := s.runs[id := run];
            ExecuteChunk(s, t, id, no) ==
            if s.runs[id].dryRun then s.(runs := runs)
            else s.(runs := runs, ledgers := s.ledgers[t := LedgerOf(s, t).(store := store)])
  {
    hide RunChunk, ChunkSucceeded;
  }

  lemma ExecutionKeeps(s: System, t: TenantId, id: RunId, no: nat)
    requires Inv(s)
    ensures Inv(ExecuteChunk(s, t, id, no))
  {
    hide Inv, ExecuteChunk;
    ChunkKeeps(s, t, id, no);
  }

  lemma FailureKeeps(s: System, t: TenantId, id: RunId, no: nat)
    requires Inv(s)
    ensures Inv(RecordFailure(s, t, id, no))
  {
    hide Inv, RecordFailure;
    ChunkKeeps(s, t, id, no);
  }

  lemma QueuedHasNoChunks(s: System, t: TenantId, id: RunId)
    requires Inv(s)
    ensures RunIn(s, t, id, Queued) ==> s.runs[id].chunks == []
  {
    if RunIn(s, t, id, Queued) { assert RunOk(s.runs[id]); }
  }

  /** The schedules play no part in whether a run is created. */
  lemma SchedulesDoNotDecide(s: System, sid: ScheduleId, schedule: Schedule, id: RunId, t: TenantId,
                             job: Option<JobCode>, params: Params, today: Date)
    requires id !in s.runs
    ensures CreateRun(s.(schedules := s.schedules[sid := schedule]), id, t, job, params, false, None, today).result
            == CreateRun(s, id, t, job, params, false, None, today).result
  {
    if job.Some? {
      var s' := s.(schedules := s.schedules[sid := schedule]);
      assert AnyActive(s', t, job.value) <==> AnyActive(s, t, job.value);
    }
  }

  lemma OneMoreAction(s: System, work: seq<Work>, i: nat, now: int)
    requires i < |work|
    ensures Reach(s, ActionsOf(work[..i + 1], now)) ==
            Advance(Reach(s, ActionsOf(work[..i], now)), ActionOf(work[i], now))
  {
    hide Advance;
    var actions := ActionsOf(work[..i + 1], now);
    assert actions[..i] == ActionsOf(work[..i], now);
  }

  /** The choice of the run under a key is no choice. */
  lemma OneRunPerKey(s: System, t: TenantId, key: Option<string>, r: RunId)
    requires Inv(s) && key.Some? && r in s.runs && HasRunKey(s, r, t, key)
    ensures forall q :: q in s.runs && HasRunKey(s, q, t, key) ==> q == r
  {
    forall q | q in s.runs && HasRunKey(s, q, t, key) ensures q == r {
      assert Compatible(q, s.runs[q], r, s.runs[r]);
    }
  }
}
