/** How running runs end: which ones the scheduler and the workers can close, which stay open, and why. */
module JobClosing {
  import opened Common
  import opened Calendar
  import opened JobHistory
  import opened LeaveAccrual
  import opened LeaveLedger
  import opened JobRuns
  import opened JobInvariants
  import opened JobTheorems

  /** Every task of a pending chunk is there to be delivered. */
  predicate AllSent(s: System, t: TenantId, id: RunId) {
    id in s.runs && forall i :: 0 <= i < |s.runs[id].chunks| && s.runs[id].chunks[i].status.ChunkPending? ==>
                      ChunkTask(t, id, i + 1) in s.sent
  }

  predicate PendingFrom(cs: seq<Chunk>, n: nat) { exists i :: n <= i < |cs| && cs[i].status.ChunkPending? }

  // ---- one delivery ----

  /** What one good delivery of chunk `no` makes of the run. */
  lemma DeliverOne(s: System, t: TenantId, id: RunId, no: nat)
    requires Inv(s) && ChunkIn(s, t, id, no)
    ensures var s', run, run' := Deliver(s, t, id, no, false), s.runs[id], Deliver(s, t, id, no, false).runs[id];
            && Inv(s') && s'.sent == s.sent && id in s'.runs && run'.tenant == run.tenant
            && |run'.chunks| == |run.chunks|
            && run'.chunks[no - 1].status == ChunkDone
            && (forall i :: 0 <= i < |run.chunks| && i != no - 1 ==> run'.chunks[i] == run.chunks[i])
            && (run'.status.Running? <==> !NoneWith(run'.chunks, ChunkPending))
            && (run'.status.Succeeded? <==> NoneWith(run'.chunks, ChunkPending) && NoneWith(run'.chunks, ChunkFailed))
            && !run'.status.Queued?
  {
    hide RunChunk, LedgerOf, Inv, RunOk, CountStatus, SumOutputs, NoneWith;
    RunIsOk(s, id);
    PendingMeansRunning(s.runs[id], no);
    var e := ExecuteChunk(s, t, id, no);
    ChunkKeeps(s, t, id, no);
    FinalizeKeeps(e, t, id);
    RunIsOk(e, id);
    FinalizedOk(e.runs[id]);
    CountZero(e.runs[id].chunks, ChunkPending);
    CountZero(e.runs[id].chunks, ChunkFailed);
  }

  lemma DeliverNothing(s: System, t: TenantId, id: RunId, no: nat)
    requires !ChunkIn(s, t, id, no)
    ensures Deliver(s, t, id, no, false) == s
  {}

  // ---- one delivery of each chunk ----

  /** The chunks delivered one after the other, each once and none failing. */
  ghost function DeliverFirst(s: System, t: TenantId, id: RunId, n: nat): System {
    if n == 0 then s else Deliver(DeliverFirst(s, t, id, n - 1), t, id, n, false)
  }

  predicate IsDelivered(s: System, s': System, t: TenantId, id: RunId, n: nat)
    requires id in s.runs
  {
    && id in s'.runs && s'.runs[id].tenant == t && s'.sent == s.sent
    && var cs, cs' := s.runs[id].chunks, s'.runs[id].chunks;
    && |cs'| == |cs|
    && (forall i :: 0 <= i < |cs| ==>
         cs'[i].status == if i < n && cs[i].status.ChunkPending? then ChunkDone else cs[i].status)
  }

  /** The status follows from what is still pending. */
  predicate StatusFollows(run: Run) {
    && !run.status.Queued?
    && (run.status.Running? <==> !NoneWith(run.chunks, ChunkPending))
    && (run.status.Succeeded? <==> NoneWith(run.chunks, ChunkPending) && NoneWith(run.chunks, ChunkFailed))
  }

  lemma {:induction false} DeliverFirstWorks(s: System, t: TenantId, id: RunId, n: nat)
    requires Inv(s) && RunIn(s, t, id, Running) && AllSent(s, t, id) && n <= |s.runs[id].chunks|
    requires !NoneWith(s.runs[id].chunks, ChunkPending)
    ensures var s' := DeliverFirst(s, t, id, n);
            Inv(s') && IsDelivered(s, s', t, id, n) && StatusFollows(s'.runs[id])
  {
    hide Inv, Deliver, StatusFollows;
    if n == 0 {
      RunningFollows(s, t, id);
    } else {
      var before := DeliverFirst(s, t, id, n - 1);
      DeliverFirstWorks(s, t, id, n - 1);
      if before.runs[id].chunks[n - 1].status.ChunkPending? {
        DeliverOne(before, t, id, n);
        Follows(Deliver(before, t, id, n, false).runs[id]);
      } else {
        DeliverNothing(before, t, id, n);
      }
    }
  }

  lemma RunningFollows(s: System, t: TenantId, id: RunId)
    requires RunIn(s, t, id, Running) && !NoneWith(s.runs[id].chunks, ChunkPending)
    ensures StatusFollows(s.runs[id])
  {}

  lemma Follows(run: Run)
    requires !run.status.Queued? && (run.status.Running? <==> !NoneWith(run.chunks, ChunkPending))
    requires run.status.Succeeded? <==> NoneWith(run.chunks, ChunkPending) && NoneWith(run.chunks, ChunkFailed)
    ensures StatusFollows(run)
  {}

  lemma {:induction false} NothingToDeliver(s: System, t: TenantId, id: RunId, n: nat)
    requires RunIn(s, t, id, Running) && NoneWith(s.runs[id].chunks, ChunkPending)
    ensures DeliverFirst(s, t, id, n) == s
  {
    hide Deliver;
    if n > 0 {
      NothingToDeliver(s, t, id, n - 1);
      DeliverNothing(s, t, id, n);
    }
  }

  /** What the scheduler and the workers can finish: after the resend and one good delivery of each chunk a
      running run has ended iff it had a pending chunk, and then with success iff none had failed for good. */
  lemma RunningRunsCanFinish(s: System, t: TenantId, id: RunId)
    requires Inv(s) && RunIn(s, t, id, Running)
    ensures var cs := s.runs[id].chunks;
            var end := DeliverFirst(Resume(s, t, id), t, id, |cs|);
            && id in end.runs
            && (!IsActive(end.runs[id].status) <==> !NoneWith(cs, ChunkPending))
            && (end.runs[id].status.Succeeded? <==> !NoneWith(cs, ChunkPending) && NoneWith(cs, ChunkFailed))
  {
    hide Inv, Deliver;
    var cs, r := s.runs[id].chunks, Resume(s, t, id);
    ResendKeeps(s, t, id);
    if NoneWith(cs, ChunkPending) {
      NothingToDeliver(r, t, id, |cs|);
    } else {
      ResumeSendsAll(s, t, id);
      DeliverFirstWorks(r, t, id, |cs|);
      var cs' := DeliverFirst(r, t, id, |cs|).runs[id].chunks;
      assert NoneWith(cs', ChunkPending);
      assert NoneWith(cs', ChunkFailed) <==> NoneWith(cs, ChunkFailed);
    }
  }

  lemma ResumeSendsAll(s: System, t: TenantId, id: RunId)
    requires Inv(s) && RunIn(s, t, id, Running)
    ensures AllSent(Resume(s, t, id), t, id) && Resume(s, t, id).runs == s.runs
  {
    RunIsOk(s, id);
    hide Inv;
    var cs := s.runs[id].chunks;
    forall i | 0 <= i < |cs| && cs[i].status.ChunkPending? ensures ChunkTask(t, id, i + 1) in ChunkTasks(t, id, cs) {
      assert ChunkOk(cs[i], i + 1, MaxAttempts(s.runs[id].job));
      assert ChunkTask(t, id, cs[i].no) in ChunkTasks(t, id, cs);
    }
  }

  // ---- runs that stay open ----

  /** Running, and nothing left to do. */
  predicate Stranded(s: System, t: TenantId, id: RunId) {
    RunIn(s, t, id, Running) && NoneWith(s.runs[id].chunks, ChunkPending)
  }

  /** Something is resent for a running run iff it has a pending chunk. */
  lemma ResendsIffPending(t: TenantId, id: RunId, cs: seq<Chunk>)
    ensures ChunkTasks(t, id, cs) != {} <==> !NoneWith(cs, ChunkPending)
  {
    if i :| 0 <= i < |cs| && cs[i].status.ChunkPending? {
      assert ChunkTask(t, id, cs[i].no) in ChunkTasks(t, id, cs);
    }
  }

  /** A worker lost after the last outcome was written, and before its finalize, strands the run: after a
      success, and after a failure that used up the attempts. */
  lemma LostWorkerLeavesRunOpen(s: System, t: TenantId, id: RunId, no: nat)
    requires Inv(s) && ChunkIn(s, t, id, no)
    requires forall i :: 0 <= i < |s.runs[id].chunks| && i != no - 1 ==> !s.runs[id].chunks[i].status.ChunkPending?
    ensures Stranded(ExecuteChunk(s, t, id, no), t, id)
    ensures Stranded(RecordFailure(s, t, id, no), t, id) <==>
            s.runs[id].chunks[no - 1].attempts + 1 >= MaxAttempts(s.runs[id].job)
  {
    hide RunChunk, LedgerOf, Inv, MaxAttempts;
    RunIsOk(s, id);
    PendingMeansRunning(s.runs[id], no);
    assert !NoneWith(RecordFailure(s, t, id, no).runs[id].chunks, ChunkPending) <==>
           RecordFailure(s, t, id, no).runs[id].chunks[no - 1].status.ChunkPending?;
  }

  /** Neither the scheduler's resend nor a chunk task delivered again helps a stranded run; a delivery that
      raises does, as does any finalize. */
  lemma OnlyFailuresFreeIt(s: System, t: TenantId, id: RunId, no: nat)
    requires Inv(s) && Stranded(s, t, id)
    ensures Resume(s, t, id) == s && Deliver(s, t, id, no, false) == s
    ensures Deliver(s, t, id, no, true) == Finalize(s, t, id) && !IsActive(Finalize(s, t, id).runs[id].status)
  {
    hide Inv, RunOk, ChunkTasks;
    RunIsOk(s, id);
    FinalizedOk(s.runs[id]);
    FinalizedEnds(s.runs[id]);
    ResendsIffPending(t, id, s.runs[id].chunks);
    assert s.sent + {} == s.sent;
  }

  lemma FinalizedEnds(run: Run)
    requires RunOk(run) && run.status.Running?
    ensures IsActive(Finalized(run).status) <==> !NoneWith(run.chunks, ChunkPending)
  {
    hide RunOk, CountStatus, SumOutputs;
    CountZero(run.chunks, ChunkPending);
  }

  /** What ends it: a stranded run stays so under exactly the actions that are no finalize and no cancel of it. */
  lemma StrandedStays(s: System, a: Action, t: TenantId, id: RunId)
    requires Inv(s) && Stranded(s, t, id)
    ensures Stranded(Advance(s, a), t, id) <==> a != Finalizing(t, id) && a != CancellingRun(t, id)
  {
    if a == Finalizing(t, id) || a == CancellingRun(t, id) {
      ClosedByIt(s, t, id);
    } else {
      OthersLeaveIt(s, a, t, id);
    }
  }

  lemma ClosedByIt(s: System, t: TenantId, id: RunId)
    requires Inv(s) && Stranded(s, t, id)
    ensures !Stranded(Finalize(s, t, id), t, id) && !Stranded(CancelRun(s, t, id).system, t, id)
  {
    hide Inv, RunOk;
    RunIsOk(s, id);
    FinalizedEnds(s.runs[id]);
  }

  lemma OthersLeaveIt(s: System, a: Action, t: TenantId, id: RunId)
    requires Inv(s) && Stranded(s, t, id) && a != Finalizing(t, id) && a != CancellingRun(t, id)
    ensures Stranded(Advance(s, a), t, id)
  {
    hide Inv, RunKept, NoNewDone, ExecuteChunk, RecordFailure, Finalize, CancelRun, RetryRun, StartRun, CreateRun;
    hide FireSchedule, Next, ChunkTasks;
    StrandedHasChunks(s, t, id);
    match a {
      case Executing(u, r, no) => NoWorkOnIt(s, u, r, no, t, id);
      case Failing(u, r, no) => NoWorkOnIt(s, u, r, no, t, id);
      case Finalizing(u, r) => ClosingAnother(s, u, r, t, id);
      case CancellingRun(u, r) => ClosingAnother(s, u, r, t, id);
      case Retrying(u, r) => KeptByRetry(s, u, r, id);
      case _ => SameByOthers(s, a, id);
    }
  }

  lemma StrandedHasChunks(s: System, t: TenantId, id: RunId)
    requires Inv(s) && Stranded(s, t, id)
    ensures s.runs[id].chunks != []
  {
    RunIsOk(s, id);
    hide Inv;
  }

  lemma NoWorkOnIt(s: System, u: TenantId, r: RunId, no: nat, t: TenantId, id: RunId)
    requires Inv(s) && Stranded(s, t, id)
    ensures id in ExecuteChunk(s, u, r, no).runs && ExecuteChunk(s, u, r, no).runs[id] == s.runs[id]
    ensures id in RecordFailure(s, u, r, no).runs && RecordFailure(s, u, r, no).runs[id] == s.runs[id]
  {
    hide Inv, RunChunk, LedgerOf, ChunkSucceeded, ChunkAttemptFailed;
  }

  lemma ClosingAnother(s: System, u: TenantId, r: RunId, t: TenantId, id: RunId)
    requires RunIn(s, t, id, Running) && !(u == t && r == id)
    ensures id in Finalize(s, u, r).runs && Finalize(s, u, r).runs[id] == s.runs[id]
    ensures id in CancelRun(s, u, r).system.runs && CancelRun(s, u, r).system.runs[id] == s.runs[id]
  {
    hide Finalized, CancelledRun;
  }

  /** Over any actions: the run is stranded all the while iff it is neither finalized nor cancelled. */
  lemma {:induction false} StrandedThroughout(s: System, actions: seq<Action>, t: TenantId, id: RunId)
    requires Inv(s) && Stranded(s, t, id)
    ensures (forall n :: 0 <= n <= |actions| ==> Stranded(Reach(s, actions[..n]), t, id)) <==>
            Finalizing(t, id) !in actions && CancellingRun(t, id) !in actions
    ensures Inv(Reach(s, actions))
  {
    hide Inv, Advance, Stranded;
    if actions == [] {
      assert forall n :: 0 <= n <= |actions| ==> actions[..n] == [];
    } else {
      var m := |actions| - 1;
      var before, a := actions[..m], actions[m];
      StrandedThroughout(s, before, t, id);
      StepKeeps(Reach(s, before), a);
      assert actions[..|actions|] == actions;
      assert forall n :: 0 <= n <= m ==> before[..n] == actions[..n];
      assert before[..m] == before;
      assert forall x :: x in actions <==> x in before || x == a;
      if Stranded(Reach(s, before), t, id) { StrandedStays(Reach(s, before), a, t, id); }
      if forall n :: 0 <= n <= |actions| ==> Stranded(Reach(s, actions[..n]), t, id) {
        forall n | 0 <= n <= m ensures Stranded(Reach(s, before[..n]), t, id) {}
      } else if forall n :: 0 <= n <= m ==> Stranded(Reach(s, before[..n]), t, id) {
        var n :| 0 <= n <= |actions| && !Stranded(Reach(s, actions[..n]), t, id);
        assert n > m ==> actions[..n] == actions;
      }
    }
  }

  // ---- a system that gets there ----

  const CLERK := FirstJob(0, "Clerk", "A", 1, None, Permanent)

  /** One employee, one accrual run with one chunk, and a worker lost after the chunk's commit. */
  const LOST_WORKER := [Leave(1, HiringEmployee(1, 0, CLERK)),
                        Creating(1, 1, Some(AccrualJob), AsOf(Some(0)), false, None, 0),
                        Starting(1, 1, false), Executing(1, 1, 1)]

  /** The run is stranded in that reachable state, and stays so whatever follows but a finalize or a cancel of it. */
  lemma StrandedRunIsReached()
    ensures Stranded(Reach(INITIAL, LOST_WORKER), 1, 1)
  {
    hide Advance, Stranded;
    FourSteps(LOST_WORKER[0], LOST_WORKER[1], LOST_WORKER[2], LOST_WORKER[3]);
    HiredAndQueued();
    var s := Advance(Advance(INITIAL, LOST_WORKER[0]), LOST_WORKER[1]);
    StartedOne(s);
    ExecutedOne(Advance(s, LOST_WORKER[2]));
  }

  lemma FourSteps(a: Action, b: Action, c: Action, d: Action)
    ensures Reach(INITIAL, [a, b, c, d]) == Advance(Advance(Advance(Advance(INITIAL, a), b), c), d)
  {
    hide Advance;
    OneStep([], a);
    OneStep([a], b);
    OneStep([a, b], c);
    OneStep([a, b, c], d);
    assert [] + [a] == [a] && [a] + [b] == [a, b] && [a, b] + [c] == [a, b, c] && [a, b, c] + [d] == [a, b, c, d];
  }

  lemma OneStep(actions: seq<Action>, a: Action)
    ensures Reach(INITIAL, actions + [a]) == Advance(Reach(INITIAL, actions), a)
  {
    hide Advance;
    assert (actions + [a])[..|actions|] == actions;
  }

  /** One employee, hired on day 0, and one queued run. */
  predicate Ready(s: System) {
    && StoreOf(s, 1).employees == map[1 := Employee(0, [CLERK])]
    && RunIn(s, 1, 1, Queued) && s.runs[1].asOf == 0 && StartTask(1, 1) in s.sent
  }

  lemma HiredAndQueued()
    ensures Ready(Advance(Advance(INITIAL, LOST_WORKER[0]), LOST_WORKER[1]))
  {
    hide Submit, Decide, Cancel, Adjust, View, RunChunk;
    var s := Advance(INITIAL, LOST_WORKER[0]);
    assert StoreOf(s, 1).employees == map[1 := Employee(0, [CLERK])];
    assert s.runs == map[];
  }

  lemma StartedOne(s: System)
    requires Ready(s)
    ensures var s' := Advance(s, Starting(1, 1, false));
            && RunIn(s', 1, 1, Running) && ChunkTask(1, 1, 1) in s'.sent
            && |s'.runs[1].chunks| == 1 && s'.runs[1].chunks[0].status.ChunkPending?
  {
    hide Plan, LedgerOf;
    PlanOfOne(StoreOf(s, 1).employees, 0);
    var run := Started(s.runs[1], Plan(StoreOf(s, 1).employees, 0));
    assert run.chunks[0].no == 1;
    assert ChunkTask(1, 1, run.chunks[0].no) in ChunkTasks(1, 1, run.chunks);
  }

  lemma OnlyOne(ids: seq<nat>)
    requires 1 in ids && (forall x :: x in ids ==> x == 1) && forall i, j :: 0 <= i < j < |ids| ==> ids[i] < ids[j]
    ensures ids == [1]
  {
    assert ids[0] in ids && ids[|ids| - 1] in ids;
    assert ids[0] == ids[|ids| - 1];
    assert |ids| == 1;
  }

  lemma PlanOfOne(es: map<EmpId, Employee>, asOf: Date)
    requires es.Keys == {1} && es[1].hireDate <= asOf
    ensures Plan(es, asOf) == [Range(1, 1, 1)]
  {
    var ids := PlannedIds(es, asOf);
    assert (set e | e in es && es[e].hireDate <= asOf) == {1};
    assert 1 in ids;
    OnlyOne(ids);
    assert Slices(ids) == [Range(1, 1, 1)] + Slices(ids[1..]);
  }

  lemma ExecutedOne(s: System)
    requires RunIn(s, 1, 1, Running) && ChunkTask(1, 1, 1) in s.sent
    requires |s.runs[1].chunks| == 1 && s.runs[1].chunks[0].status.ChunkPending?
    ensures Stranded(Advance(s, Executing(1, 1, 1)), 1, 1)
  {
    hide RunChunk, LedgerOf, StoreOf;
  }
}
