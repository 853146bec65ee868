/** Effective-dated job history (backend/app/services/employees.py, backend/app/rules/core_hr.py). */
module JobHistory {
  import opened Common
  import opened Calendar

  type EmpId = nat
  type UnitId = nat

  datatype JobAction = Hire | Rehire | Transfer | Promotion | DataChange | Termination
  datatype EmploymentStatus = Active | Terminated
  datatype EmploymentType = Permanent | Contract | Intern | Daily

  datatype JobRow = JobRow(effdt: Date, effseq: nat, action: JobAction, title: string, grade: string, unit: UnitId,
                           supervisor: Option<EmpId>, etype: EmploymentType, status: EmploymentStatus)

  /** An employee with the rows of its history in the order they were inserted. */
  datatype Employee = Employee(hireDate: Date, jobs: seq<JobRow>)

  datatype HistoryError =
    | EmployeeNotFound | HireOnlyOnCreate | EffdtBeforeHire | EffdtOutOfSequence | NoInitialRow
    | RehireRequiresTermination | EmployeeTerminated | OrgUnitInvalid | OwnSupervisor | EmployeeInvalid
    | NumberTaken | EmailTaken

  /** ORDER BY effdt DESC, effseq DESC puts `r` before `q`. */
  predicate Later(r: JobRow, q: JobRow) {
    r.effdt > q.effdt || (r.effdt == q.effdt && r.effseq > q.effseq)
  }

  /** The row in force on a date: among the rows effective by then, the first in that order. */
  function JobAsOf(rows: seq<JobRow>, asOf: Date): Option<JobRow> {
    if rows == [] then None else
      var best := JobAsOf(rows[..|rows| - 1], asOf);
      var r := rows[|rows| - 1];
      if r.effdt <= asOf && (best.None? || Later(r, best.value)) then Some(r) else best
  }

  lemma {:induction false} JobAsOfIsLatest(rows: seq<JobRow>, asOf: Date)
    ensures var r := JobAsOf(rows, asOf);
            if r.None? then forall q :: q in rows ==> q.effdt > asOf
            else r.value in rows && r.value.effdt <= asOf &&
                 forall q :: q in rows && q.effdt <= asOf ==> !Later(q, r.value)
  {
    if rows != [] {
      var rest, last := rows[..|rows| - 1], rows[|rows| - 1];
      JobAsOfIsLatest(rest, asOf);
      assert forall q :: q in rows ==> q in rest || q == last;
      assert last in rows;
    }
  }

  predicate IsActiveAt(e: Employee, asOf: Date) {
    var job := JobAsOf(e.jobs, asOf);
    job.Some? && job.value.status.Active?
  }

  function StatusFor(action: JobAction): EmploymentStatus {
    if action.Termination? then Terminated else Active
  }

  // ---- adding a row ----

  /** What a new row asks for; a missing field is taken from the row in force.
      The supervisor can be left out, cleared or set. */
  datatype JobInput = JobInput(effdt: Date, action: JobAction, title: Option<string>, grade: Option<string>,
                               unit: Option<UnitId>, supervisor: Option<Option<EmpId>>, etype: Option<EmploymentType>)

  function CheckDate(input: JobInput, hireDate: Date, latest: Option<Date>): Option<HistoryError> {
    if input.action.Hire? then Some(HireOnlyOnCreate)
    else if input.effdt < hireDate then Some(EffdtBeforeHire)
    else if latest.Some? && input.effdt < latest.value then Some(EffdtOutOfSequence)
    else None
  }

  function CheckTransition(action: JobAction, before: EmploymentStatus): Option<HistoryError> {
    if action.Rehire? && !before.Terminated? then Some(RehireRequiresTermination)
    else if !action.Rehire? && before.Terminated? then Some(EmployeeTerminated)
    else None
  }

  function MaxEffdt(rows: seq<JobRow>): Option<Date> {
    if rows == [] then None else
      var m := MaxEffdt(rows[..|rows| - 1]);
      Some(if m.None? then rows[|rows| - 1].effdt else Max(m.value, rows[|rows| - 1].effdt))
  }

  /** max(effseq) over the rows effective on one date. */
  function LastSeq(rows: seq<JobRow>, effdt: Date): Option<nat> {
    if rows == [] then None else
      var m := LastSeq(rows[..|rows| - 1], effdt);
      var r := rows[|rows| - 1];
      if r.effdt != effdt then m else Some(if m.None? then r.effseq else Max(m.value, r.effseq))
  }

  /** The row `add_job` writes, or the error it raises, in the order it checks. */
  function NewJob(id: EmpId, e: Employee, input: JobInput, activeUnits: set<UnitId>, ids: set<EmpId>)
    : Result<JobRow, HistoryError>
  {
    var dateError := CheckDate(input, e.hireDate, MaxEffdt(e.jobs));
    if dateError.Some? then Err(dateError.value) else
      var previous := JobAsOf(e.jobs, input.effdt);
      if previous.None? then Err(NoInitialRow) else
        var p := previous.value;
        var transition := CheckTransition(input.action, p.status);
        var supervisor := if input.supervisor.Some? then input.supervisor.value else p.supervisor;
        if transition.Some? then Err(transition.value)
        else if input.unit.Some? && input.unit.value !in activeUnits then Err(OrgUnitInvalid)
        else if supervisor == Some(id) then Err(OwnSupervisor)
        else if supervisor.Some? && supervisor != p.supervisor && supervisor.value !in ids then Err(EmployeeInvalid)
        else
          var seqNo := LastSeq(e.jobs, input.effdt);
          Ok(JobRow(input.effdt, if seqNo.None? then 0 else seqNo.value + 1, input.action,
                    if input.title.Some? && input.title.value != "" then input.title.value else p.title,
                    if input.grade.Some? && input.grade.value != "" then input.grade.value else p.grade,
                    if input.unit.Some? then input.unit.value else p.unit, supervisor,
                    if input.etype.Some? then input.etype.value else p.etype, StatusFor(input.action)))
  }

  function FirstJob(hireDate: Date, title: string, grade: string, unit: UnitId, supervisor: Option<EmpId>,
                    etype: EmploymentType): JobRow
  {
    JobRow(hireDate, 0, Hire, title, grade, unit, supervisor, etype, Active)
  }

  // ---- the history invariant ----

  predicate Increasing(rows: seq<JobRow>) {
    forall i, j :: 0 <= i < j < |rows| ==> Later(rows[j], rows[i])
  }

  /** The history starts with the hire, every status is the one its action gives, and exactly a rehire
      follows a termination. */
  predicate HistoryOk(e: Employee) {
    && e.jobs != []
    && e.jobs[0].action.Hire? && e.jobs[0].effdt == e.hireDate && e.jobs[0].effseq == 0
    && Increasing(e.jobs)
    && (forall i :: 0 <= i < |e.jobs| ==>
        e.jobs[i].status == StatusFor(e.jobs[i].action) && (e.jobs[i].action.Hire? <==> i == 0))
    && (forall i :: 0 < i < |e.jobs| ==> (e.jobs[i].action.Rehire? <==> e.jobs[i - 1].action.Termination?))
  }

  /** In increasing order the row in force is the last one effective by the date. */
  lemma {:induction false} JobAsOfIsLastRow(rows: seq<JobRow>, asOf: Date, n: nat)
    requires Increasing(rows) && n <= |rows|
    requires forall i :: 0 <= i < |rows| ==> (rows[i].effdt <= asOf <==> i < n)
    ensures JobAsOf(rows, asOf) == if n == 0 then None else Some(rows[n - 1])
  {
    JobAsOfIsLatest(rows, asOf);
    var r := JobAsOf(rows, asOf);
    if n > 0 {
      assert rows[n - 1] in rows;
      assert r.Some?;
      var k :| 0 <= k < |rows| && rows[k] == r.value;
      assert k == n - 1;
    }
  }

  lemma {:induction false} MaxEffdtIsLast(rows: seq<JobRow>)
    requires rows != [] && Increasing(rows)
    ensures MaxEffdt(rows) == Some(rows[|rows| - 1].effdt)
  {
    if |rows| > 1 { MaxEffdtIsLast(rows[..|rows| - 1]); }
  }

  lemma {:induction false} LastSeqBounds(rows: seq<JobRow>, effdt: Date)
    ensures forall q :: q in rows && q.effdt == effdt ==>
              LastSeq(rows, effdt).Some? && q.effseq <= LastSeq(rows, effdt).value
  {
    if rows != [] {
      var rest, last := rows[..|rows| - 1], rows[|rows| - 1];
      LastSeqBounds(rest, effdt);
      assert forall q :: q in rows ==> q in rest || q == last;
    }
  }

  /** A row `add_job` accepts extends the history in order and keeps it well formed. */
  lemma {:induction false} AddJobKeepsHistory(id: EmpId, e: Employee, input: JobInput, activeUnits: set<UnitId>,
                                              ids: set<EmpId>)
    requires HistoryOk(e)
    requires NewJob(id, e, input, activeUnits, ids).Ok?
    ensures HistoryOk(e.(jobs := e.jobs + [NewJob(id, e, input, activeUnits, ids).value]))
  {
    var last := e.jobs[|e.jobs| - 1];
    var row := NewJob(id, e, input, activeUnits, ids).value;
    MaxEffdtIsLast(e.jobs);
    LastSeqBounds(e.jobs, input.effdt);
    forall i | 0 <= i < |e.jobs| ensures Later(row, e.jobs[i]) {
      assert e.jobs[i] in e.jobs;
      if i < |e.jobs| - 1 { assert Later(last, e.jobs[i]); }
    }
    JobAsOfIsLastRow(e.jobs, input.effdt, |e.jobs|);
  }

  /** A row is accepted iff it is no hire, not before the last row, a rehire exactly after a termination, in an
      active unit if it names one, and under a supervisor who exists and is someone else. */
  lemma AddJobAcceptsExactly(id: EmpId, e: Employee, input: JobInput, activeUnits: set<UnitId>, ids: set<EmpId>)
    requires HistoryOk(e)
    ensures var last := e.jobs[|e.jobs| - 1];
            var supervisor := if input.supervisor.Some? then input.supervisor.value else last.supervisor;
            NewJob(id, e, input, activeUnits, ids).Ok? <==>
            && !input.action.Hire? && input.effdt >= last.effdt
            && (input.action.Rehire? <==> last.action.Termination?)
            && (input.unit.Some? ==> input.unit.value in activeUnits)
            && supervisor != Some(id)
            && (supervisor.Some? && supervisor != last.supervisor ==> supervisor.value in ids)
  {
    hide LastSeq, JobAsOf, MaxEffdt;
    MaxEffdtIsLast(e.jobs);
    var n := |e.jobs| - 1;
    if input.effdt >= e.jobs[n].effdt {
      forall i | 0 <= i <= n ensures e.jobs[i].effdt <= input.effdt {
        if i < n { assert Later(e.jobs[n], e.jobs[i]); }
      }
      JobAsOfIsLastRow(e.jobs, input.effdt, n + 1);
    }
    if n > 0 { assert Later(e.jobs[n], e.jobs[0]); }
  }

  /** Adding a row effective on `e` changes nothing before `e` and rules from `e` on. */
  lemma {:induction false} AddJobAsOf(id: EmpId, e: Employee, input: JobInput, activeUnits: set<UnitId>,
                                      ids: set<EmpId>, d: Date)
    requires HistoryOk(e)
    requires NewJob(id, e, input, activeUnits, ids).Ok?
    ensures var row := NewJob(id, e, input, activeUnits, ids).value;
            JobAsOf(e.jobs + [row], d) == if d < input.effdt then JobAsOf(e.jobs, d) else Some(row)
  {
    var row := NewJob(id, e, input, activeUnits, ids).value;
    AddJobKeepsHistory(id, e, input, activeUnits, ids);
    assert (e.jobs + [row])[..|e.jobs|] == e.jobs;
    JobAsOfIsLatest(e.jobs, d);
    var best := JobAsOf(e.jobs, d);
    if best.Some? {
      var k :| 0 <= k < |e.jobs| && e.jobs[k] == best.value;
      assert Later((e.jobs + [row])[|e.jobs|], (e.jobs + [row])[k]);
    }
  }

  /** Between two terminations there is a rehire, and between two rehires a termination. */
  lemma {:induction false} TerminationsAlternate(e: Employee, i: nat, j: nat)
    requires HistoryOk(e) && i < j < |e.jobs|
    requires e.jobs[i].action == e.jobs[j].action
    requires e.jobs[i].action.Termination? || e.jobs[i].action.Rehire?
    ensures exists k :: i < k < j && e.jobs[k].action == (if e.jobs[i].action.Termination? then Rehire else Termination)
  {
    if e.jobs[i].action.Termination? {
      assert e.jobs[i + 1].action.Rehire?;
    } else {
      assert e.jobs[j - 1].action.Termination?;
    }
  }

  /** The status on a date is terminated iff the last action by then was a termination. */
  lemma StatusFollowsActions(e: Employee, asOf: Date)
    requires HistoryOk(e)
    ensures IsActiveAt(e, asOf) <==> JobAsOf(e.jobs, asOf).Some? && !JobAsOf(e.jobs, asOf).value.action.Termination?
    ensures JobAsOf(e.jobs, asOf).Some? <==> e.hireDate <= asOf
  {
    JobAsOfIsLatest(e.jobs, asOf);
    assert e.jobs[0] in e.jobs;
    var r := JobAsOf(e.jobs, asOf);
    if r.Some? {
      var k :| 0 <= k < |e.jobs| && e.jobs[k] == r.value;
      if k > 0 { assert Later(e.jobs[k], e.jobs[0]); }
    }
  }

  // ---- the as-of query and its prefilter ----

  predicate MatchesJob(row: JobRow, supervisor: Option<EmpId>, unit: Option<UnitId>) {
    && (supervisor.Some? ==> row.supervisor == supervisor)
    && (unit.Some? ==> row.unit == unit.value)
  }

  /** The ids the query returns, with the candidates taken from the history first. */
  function EmployeesAsOf(es: map<EmpId, Employee>, asOf: Date, supervisor: Option<EmpId>,
                         unit: Option<UnitId>): set<EmpId> {
    var candidates := set id | id in es && exists row :: row in es[id].jobs && MatchesJob(row, supervisor, unit);
    set id | id in es && IsActiveAt(es[id], asOf) && MatchesJob(JobAsOf(es[id].jobs, asOf).value, supervisor, unit)
             && ((supervisor.Some? || unit.Some?) ==> id in candidates)
  }

  /** The prefilter never changes the result: the active employees whose row in force has the
      supervisor and unit asked for. */
  lemma PrefilterChangesNothing(es: map<EmpId, Employee>, asOf: Date, supervisor: Option<EmpId>, unit: Option<UnitId>,
                                id: EmpId)
    ensures id in EmployeesAsOf(es, asOf, supervisor, unit) <==>
            id in es && var job := JobAsOf(es[id].jobs, asOf);
            job.Some? && job.value.status.Active?
            && (supervisor.Some? ==> job.value.supervisor == supervisor)
            && (unit.Some? ==> job.value.unit == unit.value)
  {
    if id in es && IsActiveAt(es[id], asOf) {
      JobAsOfIsLatest(es[id].jobs, asOf);
    }
  }
}
