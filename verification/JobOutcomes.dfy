/** What each transaction of the job system makes of its tables, field by field. */
module JobOutcomes {
  import opened Common
  import opened Calendar
  import opened JobHistory
  import opened LeaveAccrual
  import opened JobRuns
  import opened JobInvariants
  import opened JobTheorems
  import JobRefinement
  import SystemTheorems
  import opened JobRunner

  /** Nothing but this run, and the tasks sent. */
  predicate OnlyRun(s: System, s': System, id: RunId) {
    && s'.schedules == s.schedules && s'.ledgers == s.ledgers
    && id in s'.runs && s'.runs.Keys == s.runs.Keys + {id}
    && forall r :: r in s.runs && r != id ==> s'.runs[r] == s.runs[r]
  }

  // ---- creating ----

  predicate KeyUsed(s: System, t: TenantId, key: Option<string>) {
    key.Some? && exists r :: r in s.runs && s.runs[r].tenant == t && s.runs[r].key == key
  }

  predicate JobBusy(s: System, t: TenantId, job: JobCode) {
    exists r :: r in s.runs && s.runs[r].tenant == t && s.runs[r].job == job
                && (s.runs[r].status.Queued? || s.runs[r].status.Running?)
  }

  /** A queued run with nothing done, for what was asked, and its start task. */
  predicate QueuesRun(s: System, s': System, id: RunId, t: TenantId, job: JobCode, asOf: Date, dryRun: bool,
                      key: Option<string>) {
    && OnlyRun(s, s', id) && s'.sent == s.sent + {StartTask(t, id)}
    && var run := s'.runs[id];
    && run.tenant == t && run.job == job && run.dryRun == dryRun && run.asOf == asOf && run.key == key
    && run.status.Queued? && !run.error && !run.finished
    && run.chunks == [] && run.total == run.done == run.failed == 0 && run.output == Counts(0, 0, 0, 0, 0)
  }

  lemma KeyUsedIs(s: System, t: TenantId, key: Option<string>)
    ensures KeyUsed(s, t, key) <==> KeyTaken(s, t, key)
  {
    if KeyUsed(s, t, key) {
      var r :| r in s.runs && s.runs[r].tenant == t && s.runs[r].key == key;
      assert HasRunKey(s, r, t, key);
    }
    if KeyTaken(s, t, key) { var r :| r in s.runs && HasRunKey(s, r, t, key); }
  }

  /** The refusals in their order, the run under a known key, or the run that was asked for: for the date given or
      today, dry or not. */
  lemma CreateAnswers(s: System, id: RunId, t: TenantId, job: Option<JobCode>, params: Params, dryRun: bool,
                      key: Option<string>, today: Date)
    requires id !in s.runs
    ensures var c := CreateRun(s, id, t, job, params, dryRun, key, today);
            if job.None? then c == Reply(Err(JobUnknown), s)
            else if key != Some("") && KeyUsed(s, t, key) then
              c.system == s && c.result.Ok? && c.result.value in s.runs
              && s.runs[c.result.value].tenant == t && s.runs[c.result.value].key == key
            else if params.Malformed? then c == Reply(Err(ParamsInvalid), s)
            else if params.date.Some? && params.date.value > today then c == Reply(Err(AsOfInFuture), s)
            else if JobBusy(s, t, job.value) || KeyUsed(s, t, key) then c == Reply(Err(AlreadyRunning), s)
            else
              c.result == Ok(id)
              && QueuesRun(s, c.system, id, t, job.value, if params.date.Some? then params.date.value else today,
                           dryRun, key)
  {
    hide KeyTaken, KeyUsed;
    KeyUsedIs(s, t, key);
    assert job.Some? ==> (JobBusy(s, t, job.value) <==> AnyActive(s, t, job.value));
    if job.Some? && key != Some("") && KeyUsed(s, t, key) {
      KeyIsThere(s, t, key);
      KnownKeyGives(s, id, t, job, params, dryRun, key, today);
    }
  }

  lemma KeyIsThere(s: System, t: TenantId, key: Option<string>)
    requires KeyUsed(s, t, key)
    ensures key.Some?
  {}

  lemma KnownKeyGives(s: System, id: RunId, t: TenantId, job: Option<JobCode>, params: Params, dryRun: bool,
                      key: Option<string>, today: Date)
    requires id !in s.runs && job.Some? && key.Some? && key.value != "" && KeyTaken(s, t, key)
    ensures var c := CreateRun(s, id, t, job, params, dryRun, key, today);
            c.system == s && c.result.Ok? && c.result.value in s.runs && HasRunKey(s, c.result.value, t, key)
  {}

  // ---- starting ----

  /** The ids of the employees hired by the date, in their order. */
  ghost predicate AreHired(es: map<EmpId, Employee>, asOf: Date, ids: seq<EmpId>) {
    && (forall e :: e in ids <==> e in es && es[e].hireDate <= asOf)
    && forall i, j :: 0 <= i < j < |ids| ==> ids[i] < ids[j]
  }

  /** One chunk for every 500 of them, numbered from 1, from its first id to its last, with nothing done. */
  predicate SplitsInto(ids: seq<EmpId>, chunks: seq<Chunk>) {
    && |chunks| == (|ids| + 499) / 500
    && forall i :: 0 <= i < |chunks| ==>
         var last := if 500 * i + 500 < |ids| then 500 * i + 499 else |ids| - 1;
         && 0 <= 500 * i <= last < |ids|
         && chunks[i] == Chunk(i + 1, Range(ids[500 * i], ids[last], last - 500 * i + 1), ChunkPending, 0,
                               Counts(0, 0, 0, 0, 0), false, false)
  }

  ghost predicate StartsRun(s: System, s': System, t: TenantId, id: RunId, ids: seq<EmpId>)
    requires id in s.runs && s.runs[id].status.Queued?
  {
    && OnlyRun(s, s', id)
    && var run, run' := s.runs[id], s'.runs[id];
    && SplitsInto(ids, run'.chunks)
    && (forall task :: task in s'.sent <==> task in s.sent || IsTaskOf(task, t, id, |run'.chunks|))
    && run' == run.(status := if ids == [] then Succeeded else Running, finished := ids == [],
                    total := |run'.chunks|, chunks := run'.chunks,
                    output := if ids == [] then Counts(0, 0, 0, 0, 0) else run.output)
  }

  /** A start works on a queued run only: it fails with the plan, or splits the employees into chunks and sends them. */
  lemma StartAnswers(s: System, t: TenantId, id: RunId, planFails: bool)
    requires Inv(s)
    ensures var s' := StartRun(s, t, id, planFails);
            if StartTask(t, id) !in s.sent || id !in s.runs || s.runs[id].tenant != t || !s.runs[id].status.Queued?
            then s' == s
            else if planFails then
              && OnlyRun(s, s', id) && s'.sent == s.sent
              && s'.runs[id] == s.runs[id].(status := RunFailed, error := true, finished := true)
            else exists ids :: AreHired(StoreOf(s, t).employees, s.runs[id].asOf, ids) && StartsRun(s, s', t, id, ids)
  {
    hide Inv, Plan, Slices, NewChunks, StoreOf;
    if RunIn(s, t, id, Queued) && StartTask(t, id) in s.sent && !planFails {
      var ids := PlannedIds(StoreOf(s, t).employees, s.runs[id].asOf);
      QueuedIsBare(s, id);
      PlanSplits(StoreOf(s, t).employees, s.runs[id].asOf);
      StartedRun(s, t, id);
    }
  }

  lemma QueuedIsBare(s: System, id: RunId)
    requires Inv(s) && id in s.runs && s.runs[id].status.Queued?
    ensures s.runs[id].chunks == [] && !s.runs[id].finished
  {
    RunIsOk(s, id);
    hide Inv;
  }

  lemma PlanSplits(es: map<EmpId, Employee>, asOf: Date)
    ensures AreHired(es, asOf, PlannedIds(es, asOf))
    ensures SplitsInto(PlannedIds(es, asOf), NewChunks(Plan(es, asOf)))
  {
    hide Slices, AreHired;
    var ids := PlannedIds(es, asOf);
    PlannedAreHired(es, asOf);
    LengthOfSlices(ids);
    forall i | 0 <= i < |Slices(ids)| ensures 500 * i < |ids| && Slices(ids)[i] == JobRefinement.SliceAt(ids, i) {
      JobRefinement.SlicesAt(ids, i);
    }
  }

  lemma PlannedAreHired(es: map<EmpId, Employee>, asOf: Date)
    ensures AreHired(es, asOf, PlannedIds(es, asOf))
  {}

  lemma {:induction false} LengthOfSlices(ids: seq<EmpId>)
    ensures |Slices(ids)| == (|ids| + 499) / 500
  {
    if |ids| > 500 { LengthOfSlices(ids[500..]); }
  }

  lemma StartedRun(s: System, t: TenantId, id: RunId)
    requires RunIn(s, t, id, Queued) && StartTask(t, id) in s.sent && s.runs[id].chunks == [] && !s.runs[id].finished
    requires SplitsInto(PlannedIds(StoreOf(s, t).employees, s.runs[id].asOf),
                        NewChunks(Plan(StoreOf(s, t).employees, s.runs[id].asOf)))
    ensures StartsRun(s, StartRun(s, t, id, false), t, id, PlannedIds(StoreOf(s, t).employees, s.runs[id].asOf))
  {
    hide Slices, StoreOf, PlannedIds, NewChunks, ChunkTasks;
    TasksAre(t, id, NewChunks(Plan(StoreOf(s, t).employees, s.runs[id].asOf)));
  }

  predicate IsTaskOf(task: Task, t: TenantId, id: RunId, chunks: nat) {
    task.ChunkTask? && task.tenant == t && task.run == id && 1 <= task.no <= chunks
  }

  lemma TasksAre(t: TenantId, id: RunId, chunks: seq<Chunk>)
    requires forall i :: 0 <= i < |chunks| ==> chunks[i].no == i + 1 && chunks[i].status.ChunkPending?
    ensures forall task :: task in ChunkTasks(t, id, chunks) <==> IsTaskOf(task, t, id, |chunks|)
  {
    forall task | IsTaskOf(task, t, id, |chunks|) ensures task in ChunkTasks(t, id, chunks) {
      assert ChunkTask(t, id, chunks[task.no - 1].no) in ChunkTasks(t, id, chunks);
    }
  }

  // ---- one chunk ----

  /** The delivered chunk was sent, is there, and waits to be done. */
  predicate Waits(s: System, t: TenantId, id: RunId, no: nat) {
    && ChunkTask(t, id, no) in s.sent && id in s.runs && s.runs[id].tenant == t
    && 1 <= no <= |s.runs[id].chunks| && s.runs[id].chunks[no - 1].status.ChunkPending?
  }

  /** One chunk of one run changes. */
  predicate OnlyChunk(s: System, s': System, id: RunId, no: nat)
    requires id in s.runs && 1 <= no <= |s.runs[id].chunks|
  {
    && s'.schedules == s.schedules && s'.sent == s.sent && s'.runs.Keys == s.runs.Keys
    && (forall r :: r in s.runs && r != id ==> s'.runs[r] == s.runs[r])
    && var run, run' := s.runs[id], s'.runs[id];
    && run' == run.(chunks := run'.chunks) && |run'.chunks| == |run.chunks|
    && forall i :: 0 <= i < |run.chunks| && i != no - 1 ==> run'.chunks[i] == run.chunks[i]
  }

  /** The leave tables of one tenant change. */
  ghost predicate OnlyLedger(s: System, s': System, t: TenantId, st: Store) {
    && (forall u :: u != t ==> LedgerOf(s', u) == LedgerOf(s, u))
    && LedgerOf(s', t) == LedgerOf(s, t).(store := st)
  }

  /** A worker with a waiting chunk of a running run does its range's pass and stores the counts with the chunk, one
      try later; the tables change only if the run is none for trying. */
  lemma ExecuteAnswers(s: System, t: TenantId, id: RunId, no: nat)
    ensures var s' := ExecuteChunk(s, t, id, no);
            if !Waits(s, t, id, no) || !s.runs[id].status.Running? then s' == s
            else
              && OnlyChunk(s, s', id, no)
              && var run, c := s.runs[id], s.runs[id].chunks[no - 1];
                 var (st, counts) := RunChunk(run.job, StoreOf(s, t), run.asOf, c.range.first, c.range.last);
                 && s'.runs[id].chunks[no - 1] == Chunk(c.no, c.range, ChunkDone, c.attempts + 1, counts, false, true)
                 && if run.dryRun then s'.ledgers == s.ledgers else OnlyLedger(s, s', t, st)
  {
    hide RunChunk;
  }

  /** A failed try is counted and noted; the third is the last. */
  lemma FailureAnswers(s: System, t: TenantId, id: RunId, no: nat)
    ensures var s' := RecordFailure(s, t, id, no);
            if !Waits(s, t, id, no) then s' == s
            else
              && OnlyChunk(s, s', id, no) && s'.ledgers == s.ledgers
              && var c := s.runs[id].chunks[no - 1];
                 s'.runs[id].chunks[no - 1] ==
                 if c.attempts < 2 then c.(attempts := c.attempts + 1, error := true)
                 else c.(attempts := c.attempts + 1, error := true, status := ChunkFailed, finished := true)
  {}

  // ---- closing, cancelling and trying again ----

  /** A running run counts its chunks; with none waiting it ends, by what became of them, with their counts added up. */
  lemma FinalizeAnswers(s: System, t: TenantId, id: RunId)
    ensures var s' := Finalize(s, t, id);
            if id !in s.runs || s.runs[id].tenant != t || !s.runs[id].status.Running? then s' == s
            else
              && OnlyRun(s, s', id) && s'.sent == s.sent
              && var run, run' := s.runs[id], s'.runs[id];
                 var done := |set i | 0 <= i < |run.chunks| && run.chunks[i].status.ChunkDone?|;
                 var failed := |set i | 0 <= i < |run.chunks| && run.chunks[i].status.ChunkFailed?|;
                 if exists i :: 0 <= i < |run.chunks| && run.chunks[i].status.ChunkPending? then
                   run' == run.(done := done, failed := failed)
                 else
                   run' == run.(done := done, failed := failed, finished := true, output := SumOutputs(run.chunks),
                                status := if failed == 0 then Succeeded else if done == 0 then RunFailed else Partial)
  {
    hide CountStatus, SumOutputs;
    if id in s.runs {
      var cs := s.runs[id].chunks;
      CountZero(cs, ChunkPending);
      SystemTheorems.CountIsCardinality(cs, ChunkDone);
      SystemTheorems.CountIsCardinality(cs, ChunkFailed);
      assert SystemTheorems.With(cs, ChunkDone) == set i | 0 <= i < |cs| && cs[i].status.ChunkDone?;
      assert SystemTheorems.With(cs, ChunkFailed) == set i | 0 <= i < |cs| && cs[i].status.ChunkFailed?;
    }
  }

  /** An active run and its waiting chunks are cancelled, and nothing else about it changes. */
  lemma CancelAnswers(s: System, t: TenantId, id: RunId)
    ensures var c := CancelRun(s, t, id);
            if id !in s.runs || s.runs[id].tenant != t then c == Reply(Err(RunNotFound), s)
            else if !s.runs[id].status.Queued? && !s.runs[id].status.Running? then c == Reply(Err(NotActive), s)
            else
              && c.result == Ok(id) && OnlyRun(s, c.system, id) && c.system.sent == s.sent
              && var run, run' := s.runs[id], c.system.runs[id];
              && run' == run.(status := RunCancelled, finished := true, chunks := run'.chunks)
              && |run'.chunks| == |run.chunks|
              && forall i :: 0 <= i < |run.chunks| ==>
                   var x := run.chunks[i];
                   run'.chunks[i] == if x.status.ChunkPending? then x.(status := ChunkCancelled) else x
  {}

  /** A run that failed, in part or whole, begins again: its failed chunks wait as new and every waiting chunk is sent;
      without chunks it is queued again and started. Nothing else is sent. */
  lemma RetryAnswers(s: System, t: TenantId, id: RunId)
    requires Inv(s)
    ensures var c := RetryRun(s, t, id);
            if id !in s.runs || s.runs[id].tenant != t then c == Reply(Err(RunNotFound), s)
            else if !s.runs[id].status.RunFailed? && !s.runs[id].status.Partial? then c == Reply(Err(NotRetryable), s)
            else if JobBusy(s, t, s.runs[id].job) then c == Reply(Err(AlreadyRunning), s)
            else
              && c.result == Ok(id) && OnlyRun(s, c.system, id)
              && var run, run' := s.runs[id], c.system.runs[id];
              && run' == run.(status := if run.chunks == [] then Queued else Running, error := false, finished := false,
                              failed := 0, chunks := run'.chunks)
              && |run'.chunks| == |run.chunks|
              && (forall i :: 0 <= i < |run.chunks| ==>
                    var x := run.chunks[i];
                    run'.chunks[i] == if x.status.ChunkFailed?
                                      then x.(status := ChunkPending, attempts := 0, error := false, finished := false)
                                      else x)
              && if run.chunks == [] then c.system.sent == s.sent + {StartTask(t, id)}
                 else SendsWaiting(s, c.system, t, id)
  {
    hide Inv, AnyActive, ChunkTasks, RunOk, JobBusy;
    if id in s.runs {
      RunIsOk(s, id);
      NumbersAre(s.runs[id]);
      BusyIs(s, t, s.runs[id].job);
      WaitingTasksAre(t, id, Retried(s.runs[id]).chunks);
    }
  }

  lemma NumbersAre(run: Run)
    requires RunOk(run)
    ensures forall i :: 0 <= i < |run.chunks| ==> run.chunks[i].no == i + 1
    ensures run.total == |run.chunks|
  {
    hide StatusOk;
    forall i | 0 <= i < |run.chunks| ensures run.chunks[i].no == i + 1 {
      assert ChunkOk(run.chunks[i], i + 1, MaxAttempts(run.job));
    }
  }

  lemma BusyIs(s: System, t: TenantId, job: JobCode)
    ensures JobBusy(s, t, job) <==> AnyActive(s, t, job)
  {}

  /** A task for each waiting chunk of the run, and none else. */
  ghost predicate SendsWaiting(s: System, s': System, t: TenantId, id: RunId)
    requires id in s'.runs
  {
    var cs := s'.runs[id].chunks;
    forall task :: task in s'.sent <==>
      task in s.sent || (IsTaskOf(task, t, id, |cs|) && cs[task.no - 1].status.ChunkPending?)
  }

  lemma WaitingTasksAre(t: TenantId, id: RunId, cs: seq<Chunk>)
    ensures (forall i :: 0 <= i < |cs| ==> cs[i].no == i + 1) ==>
              forall task :: task in ChunkTasks(t, id, cs) <==>
                IsTaskOf(task, t, id, |cs|) && cs[task.no - 1].status.ChunkPending?
  {
    if forall i :: 0 <= i < |cs| ==> cs[i].no == i + 1 {
      forall task | IsTaskOf(task, t, id, |cs|) && cs[task.no - 1].status.ChunkPending?
        ensures task in ChunkTasks(t, id, cs)
      {
        assert ChunkTask(t, id, cs[task.no - 1].no) in ChunkTasks(t, id, cs);
      }
    }
  }

  // ---- the scheduler ----

  /** A queued run is sent its start again, and a running one its waiting chunks. */
  lemma ResendAnswers(s: System, t: TenantId, id: RunId)
    requires Inv(s)
    ensures Requeue(s, t, id) ==
            if id in s.runs && s.runs[id].tenant == t && s.runs[id].status.Queued?
            then s.(sent := s.sent + {StartTask(t, id)})
            else s
    ensures var s' := Resume(s, t, id);
            if id in s.runs && s.runs[id].tenant == t && s.runs[id].status.Running?
            then s' == s.(sent := s'.sent) && SendsWaiting(s, s', t, id)
            else s' == s
  {
    hide Inv, ChunkTasks, RunOk;
    if id in s.runs {
      RunIsOk(s, id);
      NumbersAre(s.runs[id]);
      WaitingTasksAre(t, id, s.runs[id].chunks);
    }
  }

  /** The schedule is due. */
  predicate IsDueNow(s: System, sid: ScheduleId, now: int) {
    sid in s.schedules && s.schedules[sid].active && s.schedules[sid].nextRun <= now
  }

  /** A due schedule moves on and notes the time, and its job is asked for as a real run without a key. */
  lemma FireAnswers(s: System, sid: ScheduleId, now: int, next: int, id: RunId, today: Date)
    requires id !in s.runs && next > now
    ensures var s' := FireSchedule(s, sid, now, next, id, today);
            if !IsDueNow(s, sid, now) then s' == s
            else
              var sch, sch' := s.schedules[sid], s'.schedules;
              && sch' == s.schedules[sid := sch.(nextRun := next, lastRun := Some(now))]
              && s'.ledgers == s.ledgers
              && var date := if sch.params.AsOf? && sch.params.date.Some? then sch.params.date.value else today;
                 if sch.job.Some? && sch.params.AsOf? && date <= today && !JobBusy(s, sch.tenant, sch.job.value) then
                   QueuesRun(s.(schedules := sch'), s', id, sch.tenant, sch.job.value, date, false, None)
                 else s'.runs == s.runs && s'.sent == s.sent
  {
    hide CreateRun, QueuesRun, JobBusy;
    if IsDueNow(s, sid, now) {
      var sch := s.schedules[sid];
      var s1 := s.(schedules := s.schedules[sid := sch.(nextRun := next, lastRun := Some(now))]);
      CreateAnswers(s1, id, sch.tenant, sch.job, sch.params, false, None, today);
      CreationLeaves(s1, id, sch.tenant, sch.job, sch.params, today);
      assert !KeyUsed(s1, sch.tenant, None);
      if sch.job.Some? { SameBusy(s, s1, sch.tenant, sch.job.value); }
    }
  }

  lemma CreationLeaves(s: System, id: RunId, t: TenantId, job: Option<JobCode>, params: Params, today: Date)
    requires id !in s.runs
    ensures var c := CreateRun(s, id, t, job, params, false, None, today);
            c.system.schedules == s.schedules && c.system.ledgers == s.ledgers
  {
    hide AnyActive;
  }

  lemma SameBusy(s: System, s': System, t: TenantId, job: JobCode)
    requires s'.runs == s.runs
    ensures JobBusy(s', t, job) <==> JobBusy(s, t, job)
  {}

  /** The wait before another try is 10 seconds at first and twice as long each time, and there is none after the last.
      */
  lemma DelaysDouble(attempts: nat, max: nat)
    requires attempts > 0
    ensures RetryDelay(attempts, max).Some? <==> attempts < max
    ensures attempts == 1 < max ==> RetryDelay(attempts, max) == Some(10)
    ensures 1 < attempts < max ==> RetryDelay(attempts, max).value == 2 * RetryDelay(attempts - 1, max).value
  {}

  /** What one work item of a tick reports is what it did: the run it made, the schedule it had to skip, the run it
      sent again. */
  lemma ItemTells(s: System, w: Work, now: int)
    requires w.DueSchedule? ==> w.next > now
    ensures var s', r := Advance(s, ActionOf(w, now)), Reported(s, w, now);
            match w
            case DueSchedule(sid, run, next, today) =>
              var made := run !in s.runs && run in s'.runs;
              && r.created == (if made then [run] else [])
              && r.skipped == (if !made && s'.schedules != s.schedules && s.schedules[sid].job.Some? then [sid] else [])
              && r.requeued == [] && r.resumed == []
            case QueuedRun(t, id) =>
              && r.requeued ==
                (if id in s.runs && s.runs[id].tenant == t && s.runs[id].status.Queued? then [id] else [])
              && r.created == [] && r.skipped == [] && r.resumed == []
            case StalledRun(t, id) =>
              && r.resumed ==
                (if id in s.runs && s.runs[id].tenant == t && s.runs[id].status.Running? then [id] else [])
              && r.created == [] && r.skipped == [] && r.requeued == []
  {
    hide FireSchedule, CreateRun, QueuesRun, JobBusy;
    if w.DueSchedule? && w.run !in s.runs {
      FireAnswers(s, w.sid, now, w.next, w.run, w.today);
      if IsDueNow(s, w.sid, now) {
        var sch := s.schedules[w.sid];
        CreateAnswers(s, w.run, sch.tenant, sch.job, sch.params, false, None, w.today);
        assert !KeyUsed(s, sch.tenant, None);
        QueuedIsThere(s, FireSchedule(s, w.sid, now, w.next, w.run, w.today), w.run);
        assert s.schedules[w.sid := sch.(nextRun := w.next, lastRun := Some(now))][w.sid] != sch;
      }
    }
  }

  lemma QueuedIsThere(s: System, s': System, id: RunId)
    ensures forall s0, t, job, asOf, dryRun, key :: QueuesRun(s0, s', id, t, job, asOf, dryRun, key) ==> id in s'.runs
  {}

  lemma ItemRuns(s: System, w: Work, now: int, id: RunId)
    requires Inv(s) && (w.DueSchedule? ==> w.next > now)
    ensures id in s.runs ==> id in Advance(s, ActionOf(w, now)).runs
    ensures id in Reported(s, w, now).created <==> id !in s.runs && id in Advance(s, ActionOf(w, now)).runs
    ensures Inv(Advance(s, ActionOf(w, now)))
  {
    hide Inv, Advance, Reported;
    StepKeeps(s, ActionOf(w, now));
    if id in s.runs { RunsAreKept(s, ActionOf(w, now), id); }
    ItemTells(s, w, now);
    if w.DueSchedule? {
      if id !in s.runs && id != w.run { NoOtherRun(s, w, now, id); }
    } else {
      NoRun(s, w, now);
    }
  }

  lemma NoOtherRun(s: System, w: Work, now: int, id: RunId)
    requires w.DueSchedule? && w.next > now && id !in s.runs && id != w.run
    ensures id !in Advance(s, ActionOf(w, now)).runs
  {
    hide CreateRun, QueuesRun, FireSchedule, JobBusy;
    if w.run !in s.runs {
      FireAnswers(s, w.sid, now, w.next, w.run, w.today);
      QueuedOnly(FireSchedule(s, w.sid, now, w.next, w.run, w.today), w.run, id);
    }
  }

  lemma QueuedOnly(s': System, run: RunId, id: RunId)
    requires id != run
    ensures forall s0, t, job, asOf, dryRun, key ::
              QueuesRun(s0, s', run, t, job, asOf, dryRun, key) ==> (id in s'.runs <==> id in s0.runs)
  {}

  lemma NoRun(s: System, w: Work, now: int)
    requires !w.DueSchedule?
    ensures Advance(s, ActionOf(w, now)).runs == s.runs
  {
    hide ChunkTasks;
  }

  /** A tick reports exactly the runs that were not there before it and are after it. */
  lemma {:induction false} TickTells(s: System, work: seq<Work>, now: int, id: RunId)
    requires Inv(s) && forall w :: w in work && w.DueSchedule? ==> w.next > now
    ensures var end := Reach(s, ActionsOf(work, now));
            && Inv(end) && (id in s.runs ==> id in end.runs)
            && (id in TickReport(s, work, now).created <==> id !in s.runs && id in end.runs)
  {
    hide Inv, Advance, Reported;
    if work == [] {
      assert ActionsOf(work, now) == [];
    } else {
      var n := |work| - 1;
      TickTells(s, work[..n], now, id);
      assert work[..n + 1] == work;
      OneMoreAction(s, work, n, now);
      ItemRuns(Reach(s, ActionsOf(work[..n], now)), work[n], now, id);
    }
  }
}
