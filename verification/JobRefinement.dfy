/** A chunked run refines one sequential pass: whatever the order of the chunks, however tasks are lost or
    repeated, and through failures, cancels and retries, as long as nobody else writes the tenant's leave tables. */
module JobRefinement {
  import opened Common
  import opened Calendar
  import opened JobHistory
  import opened LeaveAccrual
  import opened AccrualLaws
  import opened LeaveLedger
  import LedgerInvariants
  import opened JobRuns
  import opened JobInvariants
  import opened JobTheorems

  // ---- the plan ----

  function SliceAt(ids: seq<EmpId>, i: nat): Range
    requires CHUNK_SIZE * i < |ids|
  {
    var end := Min(CHUNK_SIZE * i + CHUNK_SIZE, |ids|);
    Range(ids[CHUNK_SIZE * i], ids[end - 1], end - CHUNK_SIZE * i)
  }

  lemma {:induction false} SlicesAt(ids: seq<EmpId>, i: nat)
    ensures i < |Slices(ids)| <==> CHUNK_SIZE * i < |ids|
    ensures i < |Slices(ids)| ==> Slices(ids)[i] == SliceAt(ids, i)
  {
    if ids != [] && i > 0 {
      var n := if |ids| < CHUNK_SIZE then |ids| else CHUNK_SIZE;
      SlicesAt(ids[n..], i - 1);
    }
  }

  predicate InRange(e: EmpId, r: Range) { r.first <= e <= r.last }

  predicate Disjoint(rs: seq<Range>) {
    forall i, j :: 0 <= i < j < |rs| ==> rs[i].last < rs[j].first
  }

  lemma SlicesApart(ids: seq<EmpId>)
    requires forall i, j :: 0 <= i < j < |ids| ==> ids[i] < ids[j]
    ensures Disjoint(Slices(ids))
    ensures forall r :: r in Slices(ids) ==> r.first <= r.last && 1 <= r.employees <= CHUNK_SIZE
  {
    hide Slices;
    var rs := Slices(ids);
    forall i, j | 0 <= i < j < |rs| ensures rs[i].last < rs[j].first {
      SlicesAt(ids, i);
      SlicesAt(ids, j);
    }
    forall i | 0 <= i < |rs| ensures rs[i].first <= rs[i].last && 1 <= rs[i].employees <= CHUNK_SIZE {
      SlicesAt(ids, i);
    }
  }

  lemma SlicesCover(ids: seq<EmpId>, k: nat)
    requires k < |ids| && forall i, j :: 0 <= i < j < |ids| ==> ids[i] < ids[j]
    ensures k / CHUNK_SIZE < |Slices(ids)| && InRange(ids[k], Slices(ids)[k / CHUNK_SIZE])
  {
    hide Slices;
    SlicesAt(ids, k / CHUNK_SIZE);
  }

  /** The ranges of a plan lie in order without overlap and hold every planned employee. */
  lemma PlanPartitions(es: map<EmpId, Employee>, asOf: Date)
    ensures Disjoint(Plan(es, asOf))
    ensures forall r :: r in Plan(es, asOf) ==> r.first <= r.last && 1 <= r.employees <= CHUNK_SIZE
    ensures forall e :: e in es && es[e].hireDate <= asOf ==> Planned(es, asOf, e)
  {
    hide Slices, InRange;
    var ids := PlannedIds(es, asOf);
    SlicesApart(ids);
    forall e | e in es && es[e].hireDate <= asOf ensures Planned(es, asOf, e) {
      assert e in ids;
      var k :| 0 <= k < |ids| && ids[k] == e;
      SlicesCover(ids, k);
      assert InRange(e, Plan(es, asOf)[k / CHUNK_SIZE]);
    }
  }

  predicate Planned(es: map<EmpId, Employee>, asOf: Date, e: EmpId) {
    exists i :: 0 <= i < |Plan(es, asOf)| && InRange(e, Plan(es, asOf)[i])
  }

  // ---- the work of the successful chunks ----

  function RangeKeys(job: JobCode, st: Store, asOf: Date, r: Range): (ks: set<Key>)
    ensures forall k :: k in ks ==> CanApply(job, st, k) && InRange(k.emp, r) && k.year == Year(asOf)
  {
    ChunkKeys(job, st, asOf, r.first, r.last)
  }

  /** The rows the successful chunks worked on, as the store at the start has them. */
  function DoneKeys(job: JobCode, st: Store, asOf: Date, cs: seq<Chunk>): (ks: set<Key>)
    ensures forall k :: k in ks ==> CanApply(job, st, k)
  {
    set i: nat, k: Key | i < |cs| && cs[i].status.ChunkDone? && k in RangeKeys(job, st, asOf, cs[i].range) :: k
  }

  predicate RangesApart(cs: seq<Chunk>) {
    forall i, j :: 0 <= i < j < |cs| ==> cs[i].range.last < cs[j].range.first
  }

  predicate OutputsRight(job: JobCode, st: Store, asOf: Date, cs: seq<Chunk>) {
    forall i :: 0 <= i < |cs| && cs[i].status.ChunkDone? ==>
      cs[i].output == CountsFor(job, st, asOf, RangeKeys(job, st, asOf, cs[i].range))
  }

  lemma CountsUnion(job: JobCode, st: Store, asOf: Date, a: set<Key>, b: set<Key>)
    requires a !! b && forall k :: k in a + b ==> CanApply(job, st, k)
    ensures CountsFor(job, st, asOf, a + b) == CountsFor(job, st, asOf, a).Plus(CountsFor(job, st, asOf, b))
  {
    hide Count, Reports;
    forall kind: Kind
      ensures Count(a + b, ReportsKind(job, st, asOf, kind)) ==
              Count(a, ReportsKind(job, st, asOf, kind)) + Count(b, ReportsKind(job, st, asOf, kind))
    {
      CountUnion(a, b, ReportsKind(job, st, asOf, kind), ReportsKind(job, st, asOf, kind));
    }
  }

  /** The outputs of the successful chunks add up to the counts of all their rows together. */
  lemma {:induction false} OutputsAddUp(job: JobCode, st: Store, asOf: Date, cs: seq<Chunk>)
    requires RangesApart(cs) && OutputsRight(job, st, asOf, cs)
    ensures SumOutputs(cs) == CountsFor(job, st, asOf, DoneKeys(job, st, asOf, cs))
  {
    hide CountsFor, RangeKeys;
    if cs == [] {
      CountsOfNothing(job, st, asOf);
      assert DoneKeys(job, st, asOf, cs) == {};
    } else {
      var n := |cs| - 1;
      OutputsAddUp(job, st, asOf, cs[..n]);
      DoneKeysLast(job, st, asOf, cs);
      if cs[n].status.ChunkDone? {
        CountsUnion(job, st, asOf, DoneKeys(job, st, asOf, cs[..n]), RangeKeys(job, st, asOf, cs[n].range));
      }
    }
  }

  lemma CountsOfNothing(job: JobCode, st: Store, asOf: Date)
    ensures CountsFor(job, st, asOf, {}) == ZERO
  {
    NoReports(job, st, asOf, {});
  }

  lemma DoneKeysLast(job: JobCode, st: Store, asOf: Date, cs: seq<Chunk>)
    requires RangesApart(cs) && cs != []
    ensures var n := |cs| - 1;
            var last := if cs[n].status.ChunkDone? then RangeKeys(job, st, asOf, cs[n].range) else {};
            DoneKeys(job, st, asOf, cs[..n]) !! last
            && DoneKeys(job, st, asOf, cs) == DoneKeys(job, st, asOf, cs[..n]) + last
    ensures !cs[|cs| - 1].status.ChunkDone? ==> DoneKeys(job, st, asOf, cs) == DoneKeys(job, st, asOf, cs[..|cs| - 1])
  {
    hide RangeKeys;
    var n := |cs| - 1;
    var all, before := DoneKeys(job, st, asOf, cs), DoneKeys(job, st, asOf, cs[..n]);
    forall k | k in all ensures k in before || (cs[n].status.ChunkDone? && k in RangeKeys(job, st, asOf, cs[n].range)) {
      var i: nat :| i < |cs| && cs[i].status.ChunkDone? && k in RangeKeys(job, st, asOf, cs[i].range);
      if i < n { assert cs[..n][i] == cs[i]; }
    }
  }

  lemma DoneKeysAdd(job: JobCode, st: Store, asOf: Date, cs: seq<Chunk>, i: nat, c: Chunk)
    requires i < |cs| && !cs[i].status.ChunkDone? && c.status.ChunkDone? && c.range == cs[i].range
    ensures DoneKeys(job, st, asOf, cs[i := c]) == DoneKeys(job, st, asOf, cs) + RangeKeys(job, st, asOf, c.range)
  {
    hide RangeKeys;
    var ds := cs[i := c];
    forall k | k in DoneKeys(job, st, asOf, cs) ensures k in DoneKeys(job, st, asOf, ds) {
      var j: nat :| j < |cs| && cs[j].status.ChunkDone? && k in RangeKeys(job, st, asOf, cs[j].range);
      assert ds[j] == cs[j];
    }
    forall k | k in RangeKeys(job, st, asOf, c.range) ensures k in DoneKeys(job, st, asOf, ds) {
      assert ds[i] == c;
    }
  }

  lemma DoneKeysSame(job: JobCode, st: Store, asOf: Date, cs: seq<Chunk>, ds: seq<Chunk>)
    requires forall i :: 0 <= i < |ds| && ds[i].status.ChunkDone? ==> i < |cs| && cs[i] == ds[i]
    requires forall i :: 0 <= i < |cs| && cs[i].status.ChunkDone? ==> i < |ds| && ds[i] == cs[i]
    ensures DoneKeys(job, st, asOf, cs) == DoneKeys(job, st, asOf, ds)
  {
    hide RangeKeys;
  }

  // ---- one more chunk ----

  /** Rows of other employees do not matter to a chunk. */
  lemma OtherRowsDoNotMatter(job: JobCode, base: Store, asOf: Date, done: set<Key>, r: Range)
    requires forall k :: k in done ==> CanApply(job, base, k) && !InRange(k.emp, r)
    ensures SameRange(Applied(job, base, asOf, done), base, r.first, r.last)
  {
    hide Effect;
  }

  lemma NarrowRange(st: Store, base: Store, lo: EmpId, hi: EmpId, e: EmpId)
    requires SameRange(st, base, lo, hi) && lo <= e <= hi
    ensures SameRange(st, base, e, e)
  {}

  lemma RowOnTop(job: JobCode, base: Store, st: Store, asOf: Date, r: Range, k: Key)
    requires SameRange(st, base, r.first, r.last) && InRange(k.emp, r) && CanApply(job, base, k)
    ensures CanApply(job, st, k) && Effect(job, st, asOf, k) == Effect(job, base, asOf, k)
            && SameRange(st, base, k.emp, k.emp)
  {
    hide Effect, SameRange;
    NarrowRange(st, base, r.first, r.last, k.emp);
    EffectDepends(job, st, base, asOf, k);
  }

  lemma AppliedTwice(job: JobCode, base: Store, st: Store, asOf: Date, done: set<Key>, keys: set<Key>)
    requires forall k :: k in done + keys ==> CanApply(job, base, k)
    requires st == Applied(job, base, asOf, done)
    requires forall k :: k in keys ==> CanApply(job, st, k) && Effect(job, st, asOf, k) == Effect(job, base, asOf, k)
    ensures Applied(job, st, asOf, keys) == Applied(job, base, asOf, done + keys)
  {
    hide Effect, CanApply, Put;
    PutTwice(base.balances, done, keys, EffectOf(job, base, asOf), EffectOf(job, st, asOf));
  }

  /** A chunk run on top of finished ones does what it would have done alone, and reports the same. */
  lemma ChunkOnTop(job: JobCode, base: Store, asOf: Date, done: set<Key>, r: Range)
    requires forall k :: k in done ==> CanApply(job, base, k) && !InRange(k.emp, r)
    ensures var keys := RangeKeys(job, base, asOf, r);
            RunChunk(job, Applied(job, base, asOf, done), asOf, r.first, r.last) ==
            (Applied(job, base, asOf, done + keys), CountsFor(job, base, asOf, keys))
  {
    hide CountsFor, Effect, ChunkKeys, SameRange, Applied, CanApply;
    var st, keys := Applied(job, base, asOf, done), RangeKeys(job, base, asOf, r);
    OtherRowsDoNotMatter(job, base, asOf, done, r);
    KeysDepend(job, st, base, asOf, r.first, r.last);
    forall k | k in keys
      ensures CanApply(job, st, k) && Effect(job, st, asOf, k) == Effect(job, base, asOf, k)
              && SameRange(st, base, k.emp, k.emp)
    {
      RowOnTop(job, base, st, asOf, r, k);
    }
    CountsDepend(job, st, base, asOf, keys);
    AppliedTwice(job, base, st, asOf, done, keys);
  }

  // ---- a run from its start ----

  /** The tenant's leave tables are written by this run only. */
  ghost predicate Quiet(s: System, a: Action, t: TenantId, id: RunId) {
    (a.Executing? && a.t == t && a.id == id) || StoreOf(Advance(s, a), t) == StoreOf(s, t)
  }

  ghost predicate QuietThroughout(s: System, actions: seq<Action>, t: TenantId, id: RunId) {
    actions != [] ==>
      var before := actions[..|actions| - 1];
      QuietThroughout(s, before, t, id) && Quiet(Reach(s, before), actions[|actions| - 1], t, id)
  }

  predicate HasPlan(cs: seq<Chunk>, ranges: seq<Range>) {
    |cs| == |ranges| && forall i :: 0 <= i < |cs| ==> cs[i].range == ranges[i]
  }

  /** What the run has done so far to the store it started from. */
  ghost predicate Clean(s: System, t: TenantId, id: RunId, run0: Run, base: Store) {
    && id in s.runs
    && SameRun(s.runs[id], run0) && run0.tenant == t
    && PlanOk(s.runs[id], base)
    && StoreOf(s, t) == StoreFor(s.runs[id], base)
  }

  predicate SameRun(run: Run, run0: Run) {
    run.tenant == run0.tenant && run.job == run0.job && run.dryRun == run0.dryRun && run.asOf == run0.asOf
  }

  /** Once it is planned, its chunks have the ranges of the plan. */
  predicate KnowsPlan(run: Run, base: Store) {
    run.chunks != [] || run.status.Succeeded? ==> HasPlan(run.chunks, Plan(base.employees, run.asOf))
  }

  predicate PlanOk(run: Run, base: Store) {
    KnowsPlan(run, base) && OutputsRight(run.job, base, run.asOf, run.chunks)
  }

  /** The store after one pass over the rows of the successful chunks. */
  function StoreFor(run: Run, base: Store): Store {
    if run.dryRun then base else Applied(run.job, base, run.asOf, DoneKeys(run.job, base, run.asOf, run.chunks))
  }

  lemma PlanStays(run: Run, run': Run, base: Store)
    requires KnowsPlan(run, base) && RunKept(run, run') && NoNewDone(run, run')
    requires run.chunks == run'.chunks == [] || (run.chunks != [] && run'.chunks != [])
    requires run'.chunks == [] && run'.status.Succeeded? ==> run.status.Succeeded?
    ensures KnowsPlan(run', base) && SameRun(run', run)
    ensures DoneKeys(run.job, base, run.asOf, run'.chunks) == DoneKeys(run.job, base, run.asOf, run.chunks)
  {
    hide Plan, DoneKeys;
    DoneKeysSame(run.job, base, run.asOf, run.chunks, run'.chunks);
  }

  /** Changes of a run that finish no chunk. */
  lemma RunMoves(run: Run, run': Run, base: Store)
    requires PlanOk(run, base) && RunKept(run, run') && NoNewDone(run, run')
    requires run.chunks == run'.chunks == [] || (run.chunks != [] && run'.chunks != [])
    requires run'.chunks == [] && run'.status.Succeeded? ==> run.status.Succeeded?
    ensures PlanOk(run', base) && StoreFor(run', base) == StoreFor(run, base) && SameRun(run', run)
  {
    hide Plan, CountsFor, RangeKeys, DoneKeys, Applied;
    PlanStays(run, run', base);
  }

  // ---- the steps ----

  /** A run without chunks gets some, or succeeds, only by being started. */
  lemma EmptyRunStays(s: System, a: Action, id: RunId)
    requires Inv(s) && id in s.runs && s.runs[id].chunks == [] && !(a.Starting? && a.id == id)
    ensures id in Advance(s, a).runs && Advance(s, a).runs[id].chunks == []
    ensures Advance(s, a).runs[id].status.Succeeded? ==> s.runs[id].status.Succeeded?
  {
    hide Inv, CreateRun, StartRun, ExecuteChunk, RecordFailure, Finalize, CancelRun, RetryRun, FireSchedule, ChunkTasks;
    hide Next;
    match a {
      case Creating(_, _, _, _, _, _, _) => SameIfIdle(s, a, id);
      case Firing(_, _, _, _, _) => SameIfIdle(s, a, id);
      case Starting(t, r, planFails) => SameIfOther(s, t, r, planFails, id);
      case Executing(t, r, no) => NothingToExecute(s, t, r, no, id);
      case Failing(t, r, no) => NothingToExecute(s, t, r, no, id);
      case Finalizing(t, r) => EmptyStaysEmpty(s, t, r, id);
      case CancellingRun(t, r) => EmptyStaysEmpty(s, t, r, id);
      case Retrying(t, r) => EmptyStaysEmpty(s, t, r, id);
      case _ =>
    }
  }

  lemma SameIfOther(s: System, t: TenantId, r: RunId, planFails: bool, id: RunId)
    requires id in s.runs && r != id
    ensures id in StartRun(s, t, r, planFails).runs && StartRun(s, t, r, planFails).runs[id] == s.runs[id]
  {
    hide Started, PlanFailed, ChunkTasks, Plan;
  }

  lemma NothingToExecute(s: System, t: TenantId, r: RunId, no: nat, id: RunId)
    requires id in s.runs && s.runs[id].chunks == []
    ensures id in ExecuteChunk(s, t, r, no).runs && ExecuteChunk(s, t, r, no).runs[id] == s.runs[id]
    ensures id in RecordFailure(s, t, r, no).runs && RecordFailure(s, t, r, no).runs[id] == s.runs[id]
  {
    hide RunChunk, ChunkSucceeded, ChunkAttemptFailed, LedgerOf;
  }

  predicate StillEmpty(run: Run, run': Run) { run'.chunks == [] && (run'.status.Succeeded? ==> run.status.Succeeded?) }

  lemma EmptyStaysEmpty(s: System, t: TenantId, r: RunId, id: RunId)
    requires Inv(s) && id in s.runs && s.runs[id].chunks == []
    ensures id in Finalize(s, t, r).runs && StillEmpty(s.runs[id], Finalize(s, t, r).runs[id])
    ensures id in CancelRun(s, t, r).system.runs && StillEmpty(s.runs[id], CancelRun(s, t, r).system.runs[id])
    ensures id in RetryRun(s, t, r).system.runs && StillEmpty(s.runs[id], RetryRun(s, t, r).system.runs[id])
  {
    RunIsOk(s, id);
    EmptyIsNotRunning(s.runs[id]);
    hide Inv, RunOk, Finalized, ChunkTasks, AnyActive;
  }

  lemma SameIfIdle(s: System, a: Action, id: RunId)
    requires id in s.runs && (a.Creating? || a.Firing?)
    ensures id in Advance(s, a).runs && Advance(s, a).runs[id] == s.runs[id]
  {
    hide KeyTaken, AnyActive;
  }

  lemma EmptyIsNotRunning(run: Run)
    requires RunOk(run) && run.chunks == []
    ensures !run.status.Running?
  {}

  lemma StartIsClean(s: System, t: TenantId, id: RunId, planFails: bool, run0: Run, base: Store)
    requires Inv(s) && Clean(s, t, id, run0, base)
    ensures Clean(StartRun(s, t, id, planFails), t, id, run0, base)
  {
    hide Plan, Inv, ChunkTasks, Started, PlanFailed, StoreFor, PlanOk;
    RunIsOk(s, id);
    if RunIn(s, t, id, Queued) {
      StartedIsClean(s.runs[id], base);
      SameEmployees(s.runs[id], base);
    }
  }

  lemma StartedIsClean(run: Run, base: Store)
    requires RunOk(run) && run.status.Queued?
    ensures var run' := Started(run, Plan(base.employees, run.asOf));
            PlanOk(run', base) && StoreFor(run', base) == StoreFor(run, base) && SameRun(run', run)
    ensures PlanOk(PlanFailed(run), base) && StoreFor(PlanFailed(run), base) == StoreFor(run, base)
            && SameRun(PlanFailed(run), run)
  {
    hide Plan, CountsFor, RangeKeys, Applied, CountStatus, ChunkOk, SumOutputs;
    var run' := Started(run, Plan(base.employees, run.asOf));
    assert DoneKeys(run.job, base, run.asOf, run.chunks) == DoneKeys(run.job, base, run.asOf, run'.chunks);
  }

  lemma SameEmployees(run: Run, base: Store)
    ensures StoreFor(run, base).employees == base.employees
  {}

  /** One chunk of a run that has done part of its work. */
  lemma OneMoreChunk(run: Run, no: nat, base: Store)
    requires PlanOk(run, base) && 1 <= no <= |run.chunks| && run.chunks[no - 1].status.ChunkPending?
    ensures var r := run.chunks[no - 1].range;
            var (st, counts) := RunChunk(run.job, StoreFor(run, base), run.asOf, r.first, r.last);
            counts == CountsFor(run.job, base, run.asOf, RangeKeys(run.job, base, run.asOf, r))
            && StoreFor(ChunkSucceeded(run, no, counts), base) == (if run.dryRun then StoreFor(run, base) else st)
  {
    hide Plan, CountsFor, ChunkKeys, DoneKeys, Applied, HasPlan, OutputsRight;
    var r := run.chunks[no - 1].range;
    if !run.dryRun {
      var (_, counts) := RunChunk(run.job, StoreFor(run, base), run.asOf, r.first, r.last);
      hide RunChunk;
      OthersApart(run, no, base);
      ChunkOnTop(run.job, base, run.asOf, DoneKeys(run.job, base, run.asOf, run.chunks), r);
      DoneKeysAdd(run.job, base, run.asOf, run.chunks, no - 1, ChunkSucceeded(run, no, counts).chunks[no - 1]);
    }
  }

  lemma ExecutionIsClean(s: System, t: TenantId, id: RunId, no: nat, run0: Run, base: Store)
    requires Inv(s) && Clean(s, t, id, run0, base)
    ensures Clean(ExecuteChunk(s, t, id, no), t, id, run0, base)
  {
    hide Plan, CountsFor, RangeKeys, Inv, DoneKeys, Applied, RunChunk, StoreFor;
    if ChunkIn(s, t, id, no) && s.runs[id].status.Running? {
      OneMoreChunk(s.runs[id], no, base);
    }
  }

  /** No successful chunk worked on an employee of a pending one. */
  lemma OthersApart(run: Run, no: nat, base: Store)
    requires KnowsPlan(run, base) && 1 <= no <= |run.chunks| && run.chunks[no - 1].status.ChunkPending?
    ensures forall k :: k in DoneKeys(run.job, base, run.asOf, run.chunks) ==> !InRange(k.emp, run.chunks[no - 1].range)
  {
    hide Plan, CountsFor, ChunkKeys;
    PlanPartitions(base.employees, run.asOf);
  }

  lemma OtherStepIsClean(s: System, a: Action, t: TenantId, id: RunId, run0: Run, base: Store)
    requires Inv(s) && Clean(s, t, id, run0, base) && Quiet(s, a, t, id) && !a.Executing?
             && !(a.Starting? && a.id == id)
    ensures Clean(Advance(s, a), t, id, run0, base)
  {
    hide Inv, RunKept, NoNewDone, PlanOk, StoreFor, RetryRun, Advance, LedgerOf;
    if a.Retrying? { KeptByRetry(s, a.t, a.id, id); } else { KeptByOthers(s, a, id); }
    RetryIs(s, a);
    var run, run' := s.runs[id], Advance(s, a).runs[id];
    if run.chunks == [] { EmptyRunStays(s, a, id); } else { KeptLength(run, run'); }
    RunMoves(run, run', base);
  }

  lemma KeptLength(a: Run, b: Run)
    requires RunKept(a, b) && a.chunks != []
    ensures b.chunks != []
  {}

  lemma RetryIs(s: System, a: Action)
    ensures a.Retrying? ==> Advance(s, a) == RetryRun(s, a.t, a.id).system
  {
    hide RetryRun;
  }

  lemma StepIsClean(s: System, a: Action, t: TenantId, id: RunId, run0: Run, base: Store)
    requires Inv(s) && Clean(s, t, id, run0, base) && Quiet(s, a, t, id)
    ensures Clean(Advance(s, a), t, id, run0, base)
  {
    hide Inv, RunKept, NoNewDone, PlanOk, StoreFor, ExecuteChunk, StartRun, LedgerOf;
    match a {
      case Executing(u, r, no) =>
        if r == id && u == t { ExecutionIsClean(s, t, id, no, run0, base); }
        else { ForeignExecution(s, u, r, no, t, id); }
      case Starting(u, r, planFails) =>
        if r == id && u == t { StartIsClean(s, t, id, planFails, run0, base); }
        else if r == id { StartElsewhere(s, u, id, planFails); }
        else { OtherStepIsClean(s, a, t, id, run0, base); }
      case _ => OtherStepIsClean(s, a, t, id, run0, base);
    }
  }

  lemma ForeignExecution(s: System, u: TenantId, r: RunId, no: nat, t: TenantId, id: RunId)
    requires Inv(s) && id in s.runs && s.runs[id].tenant == t && !(r == id && u == t)
    ensures id in ExecuteChunk(s, u, r, no).runs && ExecuteChunk(s, u, r, no).runs[id] == s.runs[id]
  {
    hide Inv, ExecuteChunk;
    KeptByExecution(s, u, r, no, id);
  }

  lemma StartElsewhere(s: System, u: TenantId, id: RunId, planFails: bool)
    requires id in s.runs && s.runs[id].tenant != u
    ensures StartRun(s, u, id, planFails) == s
  {}

  /** From a queued run on, however long the protocol runs. */
  lemma {:induction false} AlwaysClean(s: System, actions: seq<Action>, t: TenantId, id: RunId)
    requires Inv(s) && RunIn(s, t, id, Queued) && QuietThroughout(s, actions, t, id)
    ensures Inv(Reach(s, actions)) && Clean(Reach(s, actions), t, id, s.runs[id], StoreOf(s, t))
  {
    hide Inv, Clean, Advance, Quiet;
    if actions == [] {
      QueuedIsClean(s, t, id);
    } else {
      var before, a := actions[..|actions| - 1], actions[|actions| - 1];
      AlwaysClean(s, before, t, id);
      StepKeeps(Reach(s, before), a);
      StepIsClean(Reach(s, before), a, t, id, s.runs[id], StoreOf(s, t));
    }
  }

  lemma QueuedIsClean(s: System, t: TenantId, id: RunId)
    requires Inv(s) && RunIn(s, t, id, Queued)
    ensures Clean(s, t, id, s.runs[id], StoreOf(s, t))
  {
    hide Plan, Inv, RangeKeys;
    RunIsOk(s, id);
    var run, base := s.runs[id], StoreOf(s, t);
    assert DoneKeys(run.job, base, run.asOf, []) == {};
    ProgressStart(run.job, base, run.asOf);
  }

  // ---- the results ----

  /** At every moment of a quiet run the store is the one at its start with one pass over the rows of the
      successful chunks, untouched in a dry run; when the run has ended, its output counts that pass. */
  lemma RunIsOnePassSoFar(s: System, actions: seq<Action>, t: TenantId, id: RunId)
    requires Inv(s) && RunIn(s, t, id, Queued) && QuietThroughout(s, actions, t, id)
    ensures var base, end := StoreOf(s, t), Reach(s, actions);
            id in end.runs && var run := end.runs[id];
            && SameRun(run, s.runs[id])
            && StoreOf(end, t) ==
              (if run.dryRun then base
               else Applied(run.job, base, run.asOf, DoneKeys(run.job, base, run.asOf, run.chunks)))
            && (run.status.Succeeded? || run.status.Partial? || run.status.RunFailed? ==>
                 run.output == CountsFor(run.job, base, run.asOf, DoneKeys(run.job, base, run.asOf, run.chunks)))
  {
    hide Inv, Applied, CountsFor, DoneKeys, Plan, RangeKeys, CountStatus, SumOutputs, ChunkOk;
    AlwaysClean(s, actions, t, id);
    var base, run := StoreOf(s, t), Reach(s, actions).runs[id];
    RunIsOk(Reach(s, actions), id);
    PlanPartitions(base.employees, run.asOf);
    OutputsAddUp(run.job, base, run.asOf, run.chunks);
  }

  /** The rows of all planned employees. */
  function PlannedKeys(job: JobCode, st: Store, asOf: Date): (ks: set<Key>)
    ensures forall k :: k in ks ==> CanApply(job, st, k)
  {
    var ranges := Plan(st.employees, asOf);
    set i: nat, k: Key | i < |ranges| && k in RangeKeys(job, st, asOf, ranges[i]) :: k
  }

  lemma AllDone(run: Run, base: Store)
    requires KnowsPlan(run, base) && RunOk(run) && run.status.Succeeded?
    ensures DoneKeys(run.job, base, run.asOf, run.chunks) == PlannedKeys(run.job, base, run.asOf)
  {
    hide Plan, RangeKeys, CountsFor, SumOutputs, ChunkOk;
    CountZero(run.chunks, ChunkFailed);
    assert forall i :: 0 <= i < |run.chunks| ==> run.chunks[i].status.ChunkDone?;
    var ranges := Plan(base.employees, run.asOf);
    forall i: nat | i < |ranges|
      ensures RangeKeys(run.job, base, run.asOf, ranges[i]) == RangeKeys(run.job, base, run.asOf, run.chunks[i].range)
    {}
  }

  /** A successful quiet run did the planned rows, each once, and counted them; a dry run only counted. */
  lemma SuccessIsOnePass(s: System, actions: seq<Action>, t: TenantId, id: RunId)
    requires Inv(s) && RunIn(s, t, id, Queued) && QuietThroughout(s, actions, t, id)
    requires RunIn(Reach(s, actions), t, id, Succeeded)
    ensures var run, base, end := s.runs[id], StoreOf(s, t), Reach(s, actions);
            var keys := PlannedKeys(run.job, base, run.asOf);
            end.runs[id].output == CountsFor(run.job, base, run.asOf, keys)
            && StoreOf(end, t) == if run.dryRun then base else Applied(run.job, base, run.asOf, keys)
  {
    hide Inv, Applied, CountsFor, DoneKeys, PlannedKeys, KnowsPlan, OutputsRight, RunOk;
    RunIsOnePassSoFar(s, actions, t, id);
    AlwaysClean(s, actions, t, id);
    RunIsOk(Reach(s, actions), id);
    AllDone(Reach(s, actions).runs[id], StoreOf(s, t));
  }

  ghost predicate HistoriesOk(es: map<EmpId, Employee>) { forall e :: e in es ==> HistoryOk(es[e]) }

  ghost predicate AllUpTo(es: map<EmpId, Employee>, hi: EmpId) { forall e :: e in es ==> e <= hi }

  lemma RangeIsPartOfAll(job: JobCode, st: Store, asOf: Date, r: Range, hi: EmpId, k: Key)
    requires r.last <= hi
    ensures k in RangeKeys(job, st, asOf, r) <==> k in ChunkKeys(job, st, asOf, 0, hi) && InRange(k.emp, r)
  {
    hide IsActiveAt, Year;
  }

  lemma PlanUpTo(es: map<EmpId, Employee>, asOf: Date, hi: EmpId, i: nat)
    requires AllUpTo(es, hi) && i < |Plan(es, asOf)|
    ensures Plan(es, asOf)[i].last <= hi
  {
    hide Slices;
    var ids := PlannedIds(es, asOf);
    SlicesAt(ids, i);
    assert Slices(ids)[i].last in ids;
  }

  lemma PlannedPart(job: JobCode, st: Store, asOf: Date, hi: EmpId, k: Key)
    requires AllUpTo(st.employees, hi)
    ensures k in PlannedKeys(job, st, asOf) <==>
            k in ChunkKeys(job, st, asOf, 0, hi) && Planned(st.employees, asOf, k.emp)
  {
    hide Plan, ChunkKeys, RangeKeys;
    var ranges := Plan(st.employees, asOf);
    forall i: nat | i < |ranges|
      ensures k in RangeKeys(job, st, asOf, ranges[i]) <==>
              k in ChunkKeys(job, st, asOf, 0, hi) && InRange(k.emp, ranges[i])
    {
      PlanUpTo(st.employees, asOf, hi, i);
      RangeIsPartOfAll(job, st, asOf, ranges[i], hi, k);
    }
  }

  /** Every employee the accrual works on was planned: an active one has been hired. */
  lemma ActiveArePlanned(st: Store, asOf: Date, hi: EmpId, k: Key)
    requires HistoriesOk(st.employees) && k in ChunkKeys(AccrualJob, st, asOf, 0, hi)
    ensures Planned(st.employees, asOf, k.emp)
  {
    hide Planned, Plan, HistoryOk;
    StatusFollowsActions(st.employees[k.emp], asOf);
    PlanPartitions(st.employees, asOf);
  }

  lemma HistoriesAreOk(s: System, t: TenantId)
    requires Inv(s)
    ensures HistoriesOk(StoreOf(s, t).employees)
  {
    hide RunOk, HistoryOk, LedgerInvariants.NoOverlap, LedgerInvariants.RequestOk, LedgerInvariants.BalancesAgree;
  }

  /** Together the chunks of an accrual cover the rows of one pass. */
  lemma PlannedIsAll(base: Store, asOf: Date, hi: EmpId)
    requires HistoriesOk(base.employees) && AllUpTo(base.employees, hi)
    ensures PlannedKeys(AccrualJob, base, asOf) == ChunkKeys(AccrualJob, base, asOf, 0, hi)
  {
    hide PlannedKeys, ChunkKeys, HistoriesOk, AllUpTo;
    forall k: Key ensures k in PlannedKeys(AccrualJob, base, asOf) <==> k in ChunkKeys(AccrualJob, base, asOf, 0, hi) {
      PlannedPart(AccrualJob, base, asOf, hi, k);
      if k in ChunkKeys(AccrualJob, base, asOf, 0, hi) { ActiveArePlanned(base, asOf, hi, k); }
    }
    assert PlannedKeys(AccrualJob, base, asOf) == ChunkKeys(AccrualJob, base, asOf, 0, hi);
  }

  /** A real accrual run that succeeds leaves exactly the balances and counts of one pass over all employees. */
  lemma AccrualRefinesOnePass(s: System, actions: seq<Action>, t: TenantId, id: RunId, hi: EmpId)
    requires Inv(s) && RunIn(s, t, id, Queued) && QuietThroughout(s, actions, t, id)
    requires s.runs[id].job.AccrualJob? && !s.runs[id].dryRun
    requires AllUpTo(StoreOf(s, t).employees, hi)
    requires RunIn(Reach(s, actions), t, id, Succeeded)
    ensures var end := Reach(s, actions);
            (StoreOf(end, t), end.runs[id].output) == RunChunk(AccrualJob, StoreOf(s, t), s.runs[id].asOf, 0, hi)
  {
    hide Inv, Applied, CountsFor, PlannedKeys, ChunkKeys, HistoriesOk, AllUpTo;
    var base, asOf := StoreOf(s, t), s.runs[id].asOf;
    SuccessIsOnePass(s, actions, t, id);
    HistoriesAreOk(s, t);
    PlannedIsAll(base, asOf, hi);
  }

  /** The expiry plans the same employees but works on balance rows, so its chunks do all of one pass iff
      every due row belongs to an employee inside a planned range. */
  lemma ExpiryRefinesOnePass(s: System, actions: seq<Action>, t: TenantId, id: RunId, hi: EmpId)
    requires Inv(s) && RunIn(s, t, id, Queued) && QuietThroughout(s, actions, t, id)
    requires s.runs[id].job.ExpiryJob? && !s.runs[id].dryRun
    requires AllUpTo(StoreOf(s, t).employees, hi)
    requires RunIn(Reach(s, actions), t, id, Succeeded)
    ensures var base, asOf, end := StoreOf(s, t), s.runs[id].asOf, Reach(s, actions);
            (StoreOf(end, t), end.runs[id].output) == RunChunk(ExpiryJob, base, asOf, 0, hi) <==>
            forall k :: k in ChunkKeys(ExpiryJob, base, asOf, 0, hi) ==> Planned(base.employees, asOf, k.emp)
  {
    hide Inv, CountsFor, PlannedKeys, ChunkKeys, AllUpTo, Planned, Applied;
    var base, asOf := StoreOf(s, t), s.runs[id].asOf;
    var done, all := PlannedKeys(ExpiryJob, base, asOf), ChunkKeys(ExpiryJob, base, asOf, 0, hi);
    SuccessIsOnePass(s, actions, t, id);
    forall k: Key ensures k in done <==> k in all && Planned(base.employees, asOf, k.emp) {
      PlannedPart(ExpiryJob, base, asOf, hi, k);
    }
    if k :| k in all && k !in done {
      ExpiryShows(base, asOf, done, all, hi, k);
    } else {
      assert done == all;
    }
  }

  lemma ExpiryShows(st: Store, asOf: Date, done: set<Key>, all: set<Key>, hi: EmpId, k: Key)
    requires all == ChunkKeys(ExpiryJob, st, asOf, 0, hi) && k in all && k !in done
    requires forall d :: d in done ==> CanApply(ExpiryJob, st, d)
    ensures Applied(ExpiryJob, st, asOf, done) != Applied(ExpiryJob, st, asOf, all)
  {
    hide Year, CountsFor;
    assert Applied(ExpiryJob, st, asOf, all).balances[k].closed;
    assert !Applied(ExpiryJob, st, asOf, done).balances[k].closed;
  }

  /** Dry-run fidelity: a dry run changes no leave data, and its counts are those of a real run from the
      same store, whatever order either took. */
  lemma DryRunFidelity(s: System, actions: seq<Action>, id: RunId, s': System, actions': seq<Action>, id': RunId,
                       t: TenantId)
    requires Inv(s) && RunIn(s, t, id, Queued) && QuietThroughout(s, actions, t, id)
             && RunIn(Reach(s, actions), t, id, Succeeded)
    requires Inv(s') && RunIn(s', t, id', Queued) && QuietThroughout(s', actions', t, id')
             && RunIn(Reach(s', actions'), t, id', Succeeded)
    requires s.runs[id].dryRun && !s'.runs[id'].dryRun
    requires s.runs[id].job == s'.runs[id'].job && s.runs[id].asOf == s'.runs[id'].asOf
             && StoreOf(s, t) == StoreOf(s', t)
    ensures StoreOf(Reach(s, actions), t) == StoreOf(s, t)
    ensures Reach(s, actions).runs[id].output == Reach(s', actions').runs[id'].output
  {
    hide Inv, Applied, CountsFor, PlannedKeys;
    SuccessIsOnePass(s, actions, t, id);
    SuccessIsOnePass(s', actions', t, id');
  }
}
