/** Leave requests, their approval ladders and the balances they are booked against, for one tenant
    (backend/app/services/leave_requests.py, backend/app/services/leave_balances.py).
    Every function is one transaction; a failed one leaves the ledger as it was. */
module LeaveLedger {
  import opened Common
  import opened Calendar
  import opened LeaveRules
  import opened JobHistory
  import opened LeaveAccrual

  datatype RequestStatus = Pending | Approved | Rejected | Cancelled

  datatype StepStatus = Open | Granted | Refused | Skipped

  /** Who is logged in: linked to an employee or not, in the HR role or not. */
  datatype Actor = Actor(emp: Option<EmpId>, hr: bool)

  /** One approval row; no approver means HR decides. */
  datatype Step = Step(approver: Option<EmpId>, status: StepStatus, decider: Option<Actor>)

  datatype Request = Request(emp: EmpId, ltype: TypeId, start: Date, end: Date, days: int, status: RequestStatus,
                             levels: nat, level: nat, steps: seq<Step>, key: Option<string>)

  /** Requests are never deleted: a request's id is its position. */
  datatype Ledger = Ledger(store: Store, holidays: set<Date>, requests: seq<Request>)

  datatype Error =
    | NoProfile | NotFound | Rule(violation: Violation) | OverlapConflict | NotCurrentApprover | CannotDecideOwn
    | NotPending | CannotCancelOthers | CannotCancel | WithoutBalance | BalanceNegative | Invalid

  datatype Outcome = Outcome(result: Result<nat, Error>, ledger: Ledger)

  predicate IsActiveRequest(q: Request) { q.status.Pending? || q.status.Approved? }

  function KeyOf(q: Request): Key { Key(q.emp, q.ltype, Year(q.start)) }

  // ---- evaluation ----

  /** `get_balance`: the store with the row in place, or nothing when the employee does not exist. */
  function GetBalance(st: Store, k: Key): Option<Store> {
    if k in st.balances then Some(st)
    else if k.emp in st.employees then Some(WithBalance(st, k))
    else None
  }

  datatype Evaluation = Evaluation(days: nat, errors: seq<Violation>, store: Store)

  function When(b: bool, v: Violation): seq<Violation> { if b then [v] else [] }

  function Listed(v: Option<Violation>): seq<Violation> { if v.Some? then [v.value] else [] }

  predicate HasOverlap(requests: seq<Request>, emp: EmpId, start: Date, end: Date) {
    exists q :: q in requests && q.emp == emp && IsActiveRequest(q) && Overlaps(q.start, q.end, start, end)
  }

  function RequestErrors(l: Ledger, emp: EmpId, t: LeaveType, start: Date, end: Date, today: Date,
                         days: nat): seq<Violation> {
    When(days == 0, NoWorkingDays)
    + When(emp !in l.store.employees || !IsActiveAt(l.store.employees[emp], start), EmployeeNotActive)
    + Listed(CheckNotice(start, today, t.minNotice, t.allowBackdated))
    + When(t.maxDays.Some? && days > t.maxDays.value, ExceedsMaxDays)
    + When(HasOverlap(l.requests, emp, start, end), OverlappingRequest)
  }

  /** `_evaluate`: days, the violations in the order they are found, and the store with the balance row in place. */
  function Evaluate(l: Ledger, emp: EmpId, ltype: TypeId, start: Date, end: Date, today: Date)
    : Result<Evaluation, Error>
  {
    if ltype !in l.store.types then Err(NotFound) else
      var t := l.store.types[ltype];
      var inactive := When(!t.active, LeaveTypeInactive);
      var range := CheckRange(start, end);
      if range.Some? then Ok(Evaluation(0, inactive + [range.value], l.store)) else
        var days := |Workdays(start, end, l.holidays)|;
        var errors := inactive + RequestErrors(l, emp, t, start, end, today, days);
        if !t.requiresBalance then Ok(Evaluation(days, errors, l.store)) else
          var k := Key(emp, ltype, Year(start));
          var st := GetBalance(l.store, k);
          if st.None? then Err(NotFound)
          else Ok(Evaluation(days, errors + When(days > st.value.balances[k].Available(), InsufficientBalance),
                             st.value))
  }

  // ---- submitting ----

  function SupervisorOf(es: map<EmpId, Employee>, emp: Option<EmpId>, asOf: Date): Option<EmpId> {
    if emp.None? || emp.value !in es then None else
      var job := JobAsOf(es[emp.value].jobs, asOf);
      if job.Some? then job.value.supervisor else None
  }

  /** Level 1 is the direct supervisor, each next level the supervisor of the one before. */
  function ApproverChain(es: map<EmpId, Employee>, emp: Option<EmpId>, levels: nat, asOf: Date): (c: seq<Option<EmpId>>)
    ensures |c| == levels
    decreases levels
  {
    if levels == 0 then [] else
      var next := SupervisorOf(es, emp, asOf);
      [next] + ApproverChain(es, next, levels - 1, asOf)
  }

  function OpenSteps(chain: seq<Option<EmpId>>): (s: seq<Step>)
    ensures |s| == |chain| && forall i :: 0 <= i < |s| ==> s[i] == Step(chain[i], Open, None)
  {
    if chain == [] then [] else [Step(chain[0], Open, None)] + OpenSteps(chain[1..])
  }

  /** The exclusion constraint over active ranges and the unique idempotency key. */
  predicate InsertRejected(requests: seq<Request>, q: Request) {
    exists r :: r in requests && r.emp == q.emp &&
      ((IsActiveRequest(r) && Intersects(r.start, r.end, q.start, q.end)) || (q.key.Some? && r.key == q.key))
  }

  /** The employee's request with this idempotency key. */
  function FindKey(requests: seq<Request>, emp: EmpId, key: Option<string>): (r: Option<nat>)
    ensures r.None? ==> forall q :: q in requests ==> !(q.emp == emp && q.key == key)
    ensures r.Some? ==> r.value < |requests| && requests[r.value].emp == emp && requests[r.value].key == key
  {
    if requests == [] then None else
      var last := requests[|requests| - 1];
      var r := FindKey(requests[..|requests| - 1], emp, key);
      if r.Some? then r else if last.emp == emp && last.key == key then Some(|requests| - 1) else None
  }

  function Reserve(st: Store, k: Key, days: int, used: int): Store
    requires k in st.balances
  {
    var b := st.balances[k];
    st.(balances := st.balances[k := b.(pending := b.pending + days, used := b.used + used)])
  }

  function NewRequest(l: Ledger, emp: EmpId, ltype: TypeId, start: Date, end: Date, days: nat, key: Option<string>,
                      today: Date): Request
    requires ltype in l.store.types
  {
    var levels := l.store.types[ltype].levels;
    Request(emp, ltype, start, end, days, Pending, levels, 1,
            OpenSteps(ApproverChain(l.store.employees, Some(emp), levels, today)), key)
  }

  function Submit(l: Ledger, actor: Actor, ltype: TypeId, start: Date, end: Date, key: Option<string>,
                  today: Date): Outcome {
    if actor.emp.None? then Outcome(Err(NoProfile), l) else
      var emp := actor.emp.value;
      var existing := if key.Some? && key.value != "" then FindKey(l.requests, emp, key) else None;
      if existing.Some? then Outcome(Ok(existing.value), l)
      else
        var ev := Evaluate(l, emp, ltype, start, end, today);
        if ev.Err? then Outcome(Err(ev.error), l)
        else if ev.value.errors != [] then Outcome(Err(Rule(ev.value.errors[0])), l)
        else
          var q := NewRequest(l, emp, ltype, start, end, ev.value.days, key, today);
          if InsertRejected(l.requests, q) then Outcome(Err(OverlapConflict), l)
          else
            var st := if l.store.types[ltype].requiresBalance then Reserve(ev.value.store, KeyOf(q), q.days, 0)
                      else ev.value.store;
            Outcome(Ok(|l.requests|), l.(store := st, requests := l.requests + [q]))
  }

  // ---- deciding and cancelling ----

  /** `_release_balance`: move days of a request on its balance, if its type has one. */
  function Release(st: Store, q: Request, pending: int, used: int): Option<Store> {
    if q.ltype !in st.types then None
    else if !st.types[q.ltype].requiresBalance then Some(st)
    else
      var st' := GetBalance(st, KeyOf(q));
      if st'.None? then None else Some(Reserve(st'.value, KeyOf(q), pending, used))
  }

  /** `_skip_remaining`: the rows nobody decided are skipped. */
  function SkipOpen(steps: seq<Step>): (r: seq<Step>)
    ensures |r| == |steps|
    ensures forall i :: 0 <= i < |r| ==>
      r[i] == if steps[i].status.Open? then steps[i].(status := Skipped) else steps[i]
  {
    if steps == [] then [] else
      [if steps[0].status.Open? then steps[0].(status := Skipped) else steps[0]] + SkipOpen(steps[1..])
  }

  predicate IsApprover(actor: Actor, q: Request) {
    0 < q.level <= |q.steps| && q.steps[q.level - 1].approver.Some? && q.steps[q.level - 1].approver == actor.emp
  }

  predicate CanView(actor: Actor, q: Request) {
    actor.hr || actor.emp == Some(q.emp) || (actor.emp.Some? && exists s :: s in q.steps && s.approver == actor.emp)
  }

  /** What a decision makes of the request. */
  function Decided(q: Request, actor: Actor, approve: bool): Request
    requires 0 < q.level <= |q.steps|
  {
    var i := q.level - 1;
    var steps := q.steps[i := q.steps[i].(status := if approve then Granted else Refused, decider := Some(actor))];
    if !approve then q.(status := Rejected, steps := SkipOpen(steps))
    else if q.level < q.levels then q.(level := q.level + 1, steps := steps)
    else q.(status := Approved, steps := steps)
  }

  function Decide(l: Ledger, actor: Actor, id: nat, approve: bool): Outcome {
    if id >= |l.requests| then Outcome(Err(NotFound), l) else
      var q := l.requests[id];
      if !(actor.hr || IsApprover(actor, q)) then
        Outcome(Err(if CanView(actor, q) then NotCurrentApprover else NotFound), l)
      else if actor.emp == Some(q.emp) then Outcome(Err(CannotDecideOwn), l)
      else if !q.status.Pending? then Outcome(Err(NotPending), l)
      else if !(0 < q.level <= |q.steps|) then Outcome(Err(NotFound), l)
      else
        var q' := Decided(q, actor, approve);
        var st := if q'.status.Rejected? then Release(l.store, q, -q.days, 0)
                  else if q'.status.Approved? then Release(l.store, q, -q.days, q.days)
                  else Some(l.store);
        if st.None? then Outcome(Err(NotFound), l)
        else Outcome(Ok(id), l.(store := st.value, requests := l.requests[id := q']))
  }

  function Cancel(l: Ledger, actor: Actor, id: nat, today: Date): Outcome {
    if id >= |l.requests| then Outcome(Err(NotFound), l) else
      var q := l.requests[id];
      if !(actor.hr || actor.emp == Some(q.emp)) then
        Outcome(Err(if CanView(actor, q) then CannotCancelOthers else NotFound), l)
      else if !(q.status.Pending? || (q.status.Approved? && q.start > today)) then Outcome(Err(CannotCancel), l)
      else
        var st := if q.status.Pending? then Release(l.store, q, -q.days, 0) else Release(l.store, q, 0, -q.days);
        if st.None? then Outcome(Err(NotFound), l)
        else Outcome(Ok(id), l.(store := st.value,
                                requests := l.requests[id := q.(status := Cancelled, steps := SkipOpen(q.steps))]))
  }

  /** HR's manual correction. */
  function Adjust(l: Ledger, k: Key, delta: int): Outcome {
    if k.ltype !in l.store.types then Outcome(Err(NotFound), l)
    else if !l.store.types[k.ltype].requiresBalance then Outcome(Err(WithoutBalance), l)
    else
      var st := GetBalance(l.store, k);
      if st.None? then Outcome(Err(NotFound), l) else
        var b := st.value.balances[k];
        if b.Available() + delta < 0 then Outcome(Err(BalanceNegative), l)
        else Outcome(Ok(0),
                     l.(store := st.value.(balances := st.value.balances[k := b.(adjusted := b.adjusted + delta)])))
  }

  /** Showing a balance creates it when it is missing. */
  function View(l: Ledger, k: Key): Outcome {
    if k.ltype !in l.store.types || !l.store.types[k.ltype].requiresBalance then Outcome(Err(NotFound), l) else
      var st := GetBalance(l.store, k);
      if st.None? then Outcome(Err(NotFound), l) else Outcome(Ok(0), l.(store := st.value))
  }

  // ---- everything that can happen to a ledger ----

  datatype Event =
    | Submitting(actor: Actor, ltype: TypeId, start: Date, end: Date, key: Option<string>, today: Date)
    | Deciding(actor: Actor, id: nat, approve: bool)
    | Cancelling(actor: Actor, id: nat, today: Date)
    | Adjusting(k: Key, delta: int)
    | Viewing(k: Key)
    | RunningJob(job: JobCode, asOf: Date, lo: EmpId, hi: EmpId)
    | SettingHolidays(holidays: set<Date>)
    | SettingPolicies(policies: seq<Policy>)
    | AddingType(typeId: TypeId, ltype': LeaveType)
    | ChangingType(typeId: TypeId, ltype': LeaveType)
    | HiringEmployee(emp: EmpId, hireDate: Date, row: JobRow)
    | AddingJob(emp: EmpId, input: JobInput, activeUnits: set<UnitId>)

  predicate TypeOk(t: LeaveType) { 1 <= t.levels <= 2 }

  /** Changes of the configuration, under the checks that guard them: the unique policy index, one or two
      approval levels, and no way to change whether a type has a balance. */
  function Configure(l: Ledger, e: Event): Ledger {
    match e
    case SettingHolidays(hs) => l.(holidays := hs)
    case SettingPolicies(ps) => if UniqueRules(ps) then l.(store := l.store.(policies := ps)) else l
    case AddingType(id, t) =>
      if id !in l.store.types && TypeOk(t) then l.(store := l.store.(types := l.store.types[id := t])) else l
    case ChangingType(id, t) =>
      if id in l.store.types && TypeOk(t) && t.requiresBalance == l.store.types[id].requiresBalance
      then l.(store := l.store.(types := l.store.types[id := t])) else l
    case HiringEmployee(id, hireDate, row) =>
      if id !in l.store.employees
         && row == FirstJob(hireDate, row.title, row.grade, row.unit, row.supervisor, row.etype)
      then l.(store := l.store.(employees := l.store.employees[id := Employee(hireDate, [row])])) else l
    case AddingJob(id, input, units) =>
      if id !in l.store.employees then l else
        var e := l.store.employees[id];
        var row := NewJob(id, e, input, units, l.store.employees.Keys);
        if row.Err? then l
        else l.(store := l.store.(employees := l.store.employees[id := e.(jobs := e.jobs + [row.value])]))
    case _ => l
  }

  function Next(l: Ledger, e: Event): Ledger {
    match e
    case Submitting(actor, ltype, start, end, key, today) => Submit(l, actor, ltype, start, end, key, today).ledger
    case Deciding(actor, id, approve) => Decide(l, actor, id, approve).ledger
    case Cancelling(actor, id, today) => Cancel(l, actor, id, today).ledger
    case Adjusting(k, delta) => Adjust(l, k, delta).ledger
    case Viewing(k) => View(l, k).ledger
    case RunningJob(job, asOf, lo, hi) => l.(store := RunChunk(job, l.store, asOf, lo, hi).0)
    case _ => Configure(l, e)
  }

  /** The ledger after a sequence of events. */
  function After(l: Ledger, es: seq<Event>): Ledger {
    if es == [] then l else Next(After(l, es[..|es| - 1]), es[|es| - 1])
  }

  const EMPTY := Ledger(Store(map[], map[], [], map[]), {}, [])
}
