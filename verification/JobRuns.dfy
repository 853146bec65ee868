/** The batch-job protocol over the tables of all tenants (backend/app/jobs/runner.py, backend/app/services/jobs.py,
    backend/app/jobs/scheduler.py, backend/app/jobs/leave.py). Every function is one transaction. Tasks are kept in the
    set of all tasks ever sent: a delivery may pick any of them, any number of times, or never. */
module JobRuns {
  import opened Common
  import opened Calendar
  import opened JobHistory
  import opened LeaveAccrual
  import opened LeaveLedger

  const CHUNK_SIZE: nat := 500
  const RETRY_BASE_SECONDS: nat := 10

  /** `max_attempts` of the job's definition. */
  function MaxAttempts(job: JobCode): (n: nat)
    ensures n >= 1
  {
    match job
    case AccrualJob => 3
    case ExpiryJob => 3
  }

  type RunId = nat
  type TenantId = nat
  type ScheduleId = nat

  datatype RunStatus = Queued | Running | Succeeded | Partial | RunFailed | RunCancelled

  datatype ChunkStatus = ChunkPending | ChunkDone | ChunkFailed | ChunkCancelled

  /** A chunk's share of the employees: an id range and how many were planned in it. */
  datatype Range = Range(first: EmpId, last: EmpId, employees: nat)

  datatype Chunk = Chunk(no: nat, range: Range, status: ChunkStatus, attempts: nat, output: Counts, error: bool,
                         finished: bool)

  /** A run with its chunk rows in the order of their numbers. */
  datatype Run = Run(tenant: TenantId, job: JobCode, status: RunStatus, dryRun: bool, asOf: Date, key: Option<string>,
                     total: nat, done: nat, failed: nat, output: Counts, error: bool, finished: bool,
                     chunks: seq<Chunk>)

  datatype Task = StartTask(tenant: TenantId, run: RunId) | ChunkTask(tenant: TenantId, run: RunId, no: nat)

  /** The parameters of a run as they came: a date or none, or nothing that can be read. */
  datatype Params = AsOf(date: Option<Date>) | Malformed

  /** A schedule may name a job that has no definition any more. */
  datatype Schedule = Schedule(tenant: TenantId, job: Option<JobCode>, active: bool, nextRun: int, lastRun: Option<int>,
                               params: Params)

  datatype System = System(runs: map<RunId, Run>, schedules: map<ScheduleId, Schedule>, sent: set<Task>,
                           ledgers: map<TenantId, Ledger>)

  datatype JobError = JobUnknown | ParamsInvalid | AsOfInFuture | AlreadyRunning | RunNotFound | NotActive
                    | NotRetryable

  datatype Reply = Reply(result: Result<RunId, JobError>, system: System)

  predicate IsActive(status: RunStatus) { status.Queued? || status.Running? }

  function LedgerOf(s: System, t: TenantId): Ledger { if t in s.ledgers then s.ledgers[t] else EMPTY }

  function StoreOf(s: System, t: TenantId): Store { LedgerOf(s, t).store }

  function WithStore(s: System, t: TenantId, st: Store): System {
    s.(ledgers := s.ledgers[t := LedgerOf(s, t).(store := st)])
  }

  function WithRun(s: System, id: RunId, run: Run): System { s.(runs := s.runs[id := run]) }

  function Send(s: System, tasks: set<Task>): System { s.(sent := s.sent + tasks) }

  // ---- creating a run ----

  predicate AnyActive(s: System, t: TenantId, job: JobCode) {
    exists r :: r in s.runs && s.runs[r].tenant == t && s.runs[r].job == job && IsActive(s.runs[r].status)
  }

  predicate HasRunKey(s: System, r: RunId, t: TenantId, key: Option<string>)
    requires r in s.runs
  {
    s.runs[r].tenant == t && s.runs[r].key == key
  }

  predicate KeyTaken(s: System, t: TenantId, key: Option<string>) {
    key.Some? && exists r :: r in s.runs && HasRunKey(s, r, t, key)
  }

  function NewRun(t: TenantId, job: JobCode, asOf: Date, dryRun: bool, key: Option<string>): Run {
    Run(t, job, Queued, dryRun, asOf, key, 0, 0, 0, ZERO, false, false, [])
  }

  /** `create_run` with a fresh id: a known idempotency key gives the run there is. */
  ghost function CreateRun(s: System, id: RunId, t: TenantId, job: Option<JobCode>, params: Params, dryRun: bool,
                           key: Option<string>, today: Date): Reply
    requires id !in s.runs
  {
    if job.None? then Reply(Err(JobUnknown), s)
    else if key.Some? && key.value != "" && KeyTaken(s, t, key) then
      var r :| r in s.runs && HasRunKey(s, r, t, key);
      Reply(Ok(r), s)
    else if params.Malformed? then Reply(Err(ParamsInvalid), s)
    else
      var date := if params.date.Some? then params.date.value else today;
      if date > today then Reply(Err(AsOfInFuture), s)
      else if AnyActive(s, t, job.value) || KeyTaken(s, t, key) then Reply(Err(AlreadyRunning), s)
      else Reply(Ok(id), Send(WithRun(s, id, NewRun(t, job.value, date, dryRun, key)), {StartTask(t, id)}))
  }

  // ---- planning ----

  /** The employees hired by the date, in the order of their ids. */
  function PlannedIds(es: map<EmpId, Employee>, asOf: Date): seq<EmpId> {
    Ascending(set e | e in es && es[e].hireDate <= asOf)
  }

  /** Groups of at most `CHUNK_SIZE` ids, each given by its first and last. */
  function Slices(ids: seq<EmpId>): seq<Range> {
    if ids == [] then [] else
      var n := if |ids| < CHUNK_SIZE then |ids| else CHUNK_SIZE;
      [Range(ids[0], ids[n - 1], n)] + Slices(ids[n..])
  }

  function Plan(es: map<EmpId, Employee>, asOf: Date): seq<Range> { Slices(PlannedIds(es, asOf)) }

  /** One pending chunk per range, numbered from 1. */
  function NewChunks(ranges: seq<Range>): (cs: seq<Chunk>)
    ensures |cs| == |ranges|
    ensures forall i :: 0 <= i < |cs| ==> cs[i] == Chunk(i + 1, ranges[i], ChunkPending, 0, ZERO, false, false)
  {
    if ranges == [] then [] else
      NewChunks(ranges[..|ranges| - 1]) + [Chunk(|ranges|, ranges[|ranges| - 1], ChunkPending, 0, ZERO, false, false)]
  }

  function Started(run: Run, ranges: seq<Range>): Run {
    var cs := NewChunks(ranges);
    if cs == [] then run.(status := Succeeded, total := 0, finished := true, output := ZERO)
    else run.(status := Running, total := |cs|, chunks := cs)
  }

  function PlanFailed(run: Run): Run { run.(status := RunFailed, error := true, finished := true) }

  function ChunkTasks(t: TenantId, id: RunId, chunks: seq<Chunk>): set<Task> {
    set i | 0 <= i < |chunks| && chunks[i].status.ChunkPending? :: ChunkTask(t, id, chunks[i].no)
  }

  predicate RunIn(s: System, t: TenantId, id: RunId, status: RunStatus) {
    id in s.runs && s.runs[id].tenant == t && s.runs[id].status == status
  }

  function StartRun(s: System, t: TenantId, id: RunId, planFails: bool): System {
    if StartTask(t, id) !in s.sent || !RunIn(s, t, id, Queued) then s
    else if planFails then WithRun(s, id, PlanFailed(s.runs[id]))
    else
      var run := Started(s.runs[id], Plan(StoreOf(s, t).employees, s.runs[id].asOf));
      Send(WithRun(s, id, run), ChunkTasks(t, id, run.chunks))
  }

  // ---- one chunk ----

  predicate ChunkIn(s: System, t: TenantId, id: RunId, no: nat) {
    ChunkTask(t, id, no) in s.sent && id in s.runs && s.runs[id].tenant == t
    && 1 <= no <= |s.runs[id].chunks| && s.runs[id].chunks[no - 1].status.ChunkPending?
  }

  function ChunkSucceeded(run: Run, no: nat, output: Counts): Run
    requires 1 <= no <= |run.chunks|
  {
    var c := run.chunks[no - 1];
    var c' := c.(status := ChunkDone, attempts := c.attempts + 1, error := false, output := output, finished := true);
    run.(chunks := run.chunks[no - 1 := c'])
  }

  /** `_execute_chunk` runs to its end: the business change, unless it is a dry run, and the chunk's
      status in one transaction. */
  function ExecuteChunk(s: System, t: TenantId, id: RunId, no: nat): System {
    if !ChunkIn(s, t, id, no) || !s.runs[id].status.Running? then s
    else
      var run := s.runs[id];
      var r := run.chunks[no - 1].range;
      var (st, counts) := RunChunk(run.job, StoreOf(s, t), run.asOf, r.first, r.last);
      var s' := WithRun(s, id, ChunkSucceeded(run, no, counts));
      if run.dryRun then s' else WithStore(s', t, st)
  }

  function ChunkAttemptFailed(run: Run, no: nat): Run
    requires 1 <= no <= |run.chunks|
  {
    var c := run.chunks[no - 1];
    var last := c.attempts + 1 >= MaxAttempts(run.job);
    run.(chunks := run.chunks[no - 1 := c.(attempts := c.attempts + 1, error := true,
                                          status := if last then ChunkFailed else c.status,
                                          finished := if last then true else c.finished)])
  }

  /** `_record_failure`, after any exception out of `_execute_chunk`. */
  function RecordFailure(s: System, t: TenantId, id: RunId, no: nat): System {
    if !ChunkIn(s, t, id, no) then s else WithRun(s, id, ChunkAttemptFailed(s.runs[id], no))
  }

  // ---- closing a run ----

  function CountStatus(cs: seq<Chunk>, status: ChunkStatus): nat {
    if cs == [] then 0 else CountStatus(cs[..|cs| - 1], status) + (if cs[|cs| - 1].status == status then 1 else 0)
  }

  /** The outputs of the successful chunks, added up. */
  function SumOutputs(cs: seq<Chunk>): Counts {
    if cs == [] then ZERO else
      var rest := SumOutputs(cs[..|cs| - 1]);
      if cs[|cs| - 1].status.ChunkDone? then rest.Plus(cs[|cs| - 1].output) else rest
  }

  function Finalized(run: Run): Run {
    var done, failed := CountStatus(run.chunks, ChunkDone), CountStatus(run.chunks, ChunkFailed);
    var r := run.(done := done, failed := failed);
    if CountStatus(run.chunks, ChunkPending) > 0 then r
    else r.(output := SumOutputs(run.chunks), finished := true,
            status := if failed == 0 then Succeeded else if done > 0 then Partial else RunFailed)
  }

  function Finalize(s: System, t: TenantId, id: RunId): System {
    if !RunIn(s, t, id, Running) then s else WithRun(s, id, Finalized(s.runs[id]))
  }

  /** `run_chunk`, when no other transaction comes between its own: after a failure always, else only if the
      chunk was worked on, the run is finalized. */
  function Deliver(s: System, t: TenantId, id: RunId, no: nat, raises: bool): System {
    if raises then Finalize(RecordFailure(s, t, id, no), t, id)
    else if ChunkIn(s, t, id, no) && s.runs[id].status.Running? then Finalize(ExecuteChunk(s, t, id, no), t, id)
    else s
  }

  // ---- users ----

  function CancelPending(cs: seq<Chunk>): (r: seq<Chunk>)
    ensures |r| == |cs|
    ensures forall i :: 0 <= i < |r| ==>
      r[i] == if cs[i].status.ChunkPending? then cs[i].(status := ChunkCancelled) else cs[i]
  {
    seq(|cs|, i requires 0 <= i < |cs| =>
      if cs[i].status.ChunkPending? then cs[i].(status := ChunkCancelled) else cs[i])
  }

  function CancelledRun(run: Run): Run {
    run.(status := RunCancelled, finished := true, chunks := CancelPending(run.chunks))
  }

  function CancelRun(s: System, t: TenantId, id: RunId): Reply {
    if id !in s.runs || s.runs[id].tenant != t then Reply(Err(RunNotFound), s)
    else if !IsActive(s.runs[id].status) then Reply(Err(NotActive), s)
    else Reply(Ok(id), WithRun(s, id, CancelledRun(s.runs[id])))
  }

  function ResetFailed(cs: seq<Chunk>): (r: seq<Chunk>)
    ensures |r| == |cs|
    ensures forall i :: 0 <= i < |r| ==>
      r[i] ==
        if !cs[i].status.ChunkFailed? then cs[i]
        else cs[i].(status := ChunkPending, attempts := 0, error := false, finished := false)
  {
    seq(|cs|, i requires 0 <= i < |cs| =>
      if cs[i].status.ChunkFailed? then cs[i].(status := ChunkPending, attempts := 0, error := false, finished := false)
      else cs[i])
  }

  function Retried(run: Run): Run {
    run.(status := if run.total > 0 then Running else Queued, error := false, finished := false, failed := 0,
         chunks := ResetFailed(run.chunks))
  }

  function RetryRun(s: System, t: TenantId, id: RunId): Reply {
    if id !in s.runs || s.runs[id].tenant != t then Reply(Err(RunNotFound), s)
    else if !(s.runs[id].status.RunFailed? || s.runs[id].status.Partial?) then Reply(Err(NotRetryable), s)
    else if AnyActive(s, t, s.runs[id].job) then Reply(Err(AlreadyRunning), s)
    else
      var run := Retried(s.runs[id]);
      Reply(Ok(id),
            Send(WithRun(s, id, run), if run.total == 0 then {StartTask(t, id)} else ChunkTasks(t, id, run.chunks)))
  }

  // ---- the scheduler ----

  /** A due schedule moves to its next time and starts a run, unless one cannot be started now. */
  ghost function FireSchedule(s: System, sid: ScheduleId, now: int, next: int, id: RunId, today: Date): System
    requires id !in s.runs
  {
    if sid !in s.schedules || !s.schedules[sid].active || s.schedules[sid].nextRun > now || next <= now then s
    else
      var schedule := s.schedules[sid];
      var s' := s.(schedules := s.schedules[sid := schedule.(nextRun := next, lastRun := Some(now))]);
      CreateRun(s', id, schedule.tenant, schedule.job, schedule.params, false, None, today).system
  }

  function Requeue(s: System, t: TenantId, id: RunId): System {
    if RunIn(s, t, id, Queued) then Send(s, {StartTask(t, id)}) else s
  }

  function Resume(s: System, t: TenantId, id: RunId): System {
    if RunIn(s, t, id, Running) then Send(s, ChunkTasks(t, id, s.runs[id].chunks)) else s
  }

  // ---- everything that can happen ----

  datatype Action =
    | Creating(id: RunId, t: TenantId, job: Option<JobCode>, params: Params, dryRun: bool, key: Option<string>,
               today: Date)
    | Starting(t: TenantId, id: RunId, planFails: bool)
    | Executing(t: TenantId, id: RunId, no: nat)
    | Failing(t: TenantId, id: RunId, no: nat)
    | Finalizing(t: TenantId, id: RunId)
    | CancellingRun(t: TenantId, id: RunId)
    | Retrying(t: TenantId, id: RunId)
    | Scheduling(sid: ScheduleId, schedule: Schedule)
    | Firing(sid: ScheduleId, now: int, next: int, id: RunId, today: Date)
    | Requeueing(t: TenantId, id: RunId)
    | Resuming(t: TenantId, id: RunId)
    | Leave(t: TenantId, event: Event)

  ghost function Advance(s: System, a: Action): System {
    match a
    case Creating(id, t, job, params, dryRun, key, today) =>
      if id in s.runs then s else CreateRun(s, id, t, job, params, dryRun, key, today).system
    case Starting(t, id, planFails) => StartRun(s, t, id, planFails)
    case Executing(t, id, no) => ExecuteChunk(s, t, id, no)
    case Failing(t, id, no) => RecordFailure(s, t, id, no)
    case Finalizing(t, id) => Finalize(s, t, id)
    case CancellingRun(t, id) => CancelRun(s, t, id).system
    case Retrying(t, id) => RetryRun(s, t, id).system
    case Scheduling(sid, schedule) => s.(schedules := s.schedules[sid := schedule])
    case Firing(sid, now, next, id, today) => if id in s.runs then s else FireSchedule(s, sid, now, next, id, today)
    case Requeueing(t, id) => Requeue(s, t, id)
    case Resuming(t, id) => Resume(s, t, id)
    case Leave(t, event) => if event.RunningJob? then s else s.(ledgers := s.ledgers[t := Next(LedgerOf(s, t), event)])
  }

  ghost function Reach(s: System, actions: seq<Action>): System {
    if actions == [] then s else Advance(Reach(s, actions[..|actions| - 1]), actions[|actions| - 1])
  }

  const INITIAL := System(map[], map[], {}, map[])
}
