/** The leave jobs: daily accrual and carry-over expiry over a range of employee ids
    (backend/app/services/leave_accrual.py, backend/app/services/leave_balances.py). */
module LeaveAccrual {
  import opened Common
  import opened Calendar
  import opened LeaveRules
  import opened JobHistory

  datatype LeaveType = LeaveType(requiresBalance: bool, minNotice: nat, allowBackdated: bool,
                                 maxDays: Option<nat>, levels: nat, active: bool)

  /** One balance row per employee, leave type and year. */
  datatype Key = Key(emp: EmpId, ltype: TypeId, year: int)

  datatype Balance = Balance(entitled: int, carried: int, adjusted: int, used: int, pending: int, expired: int,
                             applied: bool, expiresOn: Option<Date>, closed: bool)
  {
    function Available(): int { entitled + carried + adjusted - used - pending - expired }
  }

  /** The tables of one tenant the jobs read and write. */
  datatype Store = Store(employees: map<EmpId, Employee>, types: map<TypeId, LeaveType>, policies: seq<Policy>,
                         balances: map<Key, Balance>)

  datatype JobCode = AccrualJob | ExpiryJob

  datatype Kind = BalanceCreated | EntitlementIncreased | CarriedOver | CarryOverExpired | CarryOverFullyUsed

  /** A Counter over the kinds of change: `result.add` raises one, `totals.update` adds two up. */
  datatype Counts = Counts(created: nat, increased: nat, carried: nat, expired: nat, fullyUsed: nat) {
    function Plus(c: Counts): Counts {
      Counts(created + c.created, increased + c.increased, carried + c.carried, expired + c.expired,
             fullyUsed + c.fullyUsed)
    }

    function Add(kind: Kind): Counts {
      match kind
      case BalanceCreated => this.(created := created + 1)
      case EntitlementIncreased => this.(increased := increased + 1)
      case CarriedOver => this.(carried := carried + 1)
      case CarryOverExpired => this.(expired := expired + 1)
      case CarryOverFullyUsed => this.(fullyUsed := fullyUsed + 1)
    }
  }

  const ZERO := Counts(0, 0, 0, 0, 0)

  function Lookup(st: Store, k: Key): Option<Balance> { if k in st.balances then Some(st.balances[k]) else None }

  // ---- entitlement ----

  function GradeAt(e: Employee, asOf: Date): Option<string> {
    var job := JobAsOf(e.jobs, asOf);
    if job.Some? then Some(job.value.grade) else None
  }

  function PolicyAt(st: Store, emp: EmpId, ltype: TypeId, asOf: Date): Option<Policy>
    requires emp in st.employees
  {
    var e := st.employees[emp];
    PickPolicy(st.policies, ltype, GradeAt(e, asOf), ServiceMonths(e.hireDate, asOf))
  }

  function DaysOf(p: Option<Policy>): nat { if p.Some? then p.value.annualDays else 0 }

  /** The policy at the start of the year, or at the hire date in the year of hire. */
  function BasePolicy(st: Store, k: Key): Option<Policy>
    requires k.emp in st.employees
  {
    PolicyAt(st, k.emp, k.ltype, Max(JanFirst(k.year), st.employees[k.emp].hireDate))
  }

  function NewBalance(entitled: int): Balance { Balance(entitled, 0, 0, 0, 0, 0, false, None, false) }

  /** `entitlement_for`: the days a balance starts with, from the policies of its own type only. */
  function EntitlementFor(st: Store, k: Key): nat
    requires k.emp in st.employees
  {
    var e := st.employees[k.emp];
    var reference := Max(JanFirst(k.year), e.hireDate);
    DaysOf(PickPolicy(OfType(st.policies, k.ltype), k.ltype, GradeAt(e, reference),
                      ServiceMonths(e.hireDate, reference)))
  }

  /** `get_balance`: the row, created with the start-of-year entitlement if it is missing. */
  function WithBalance(st: Store, k: Key): Store
    requires k.emp in st.employees
  {
    if k in st.balances then st else st.(balances := st.balances[k := NewBalance(EntitlementFor(st, k))])
  }

  // ---- what a job does to one balance row ----

  function Carry(st: Store, k: Key): nat
    requires k.emp in st.employees
  {
    var lastYear := Lookup(st, k.(year := k.year - 1));
    var base := BasePolicy(st, k);
    if lastYear.Some? && base.Some? then Min(Max(lastYear.value.Available(), 0), base.value.maxCarry) else 0
  }

  function WithCarry(st: Store, k: Key, b: Balance): Balance
    requires k.emp in st.employees
  {
    if b.applied then b
    else if Carry(st, k) == 0 then b.(applied := true)
    else b.(carried := b.carried + Carry(st, k), applied := true,
            expiresOn := CarryOverExpiry(k.year, BasePolicy(st, k).value.expiryMonths))
  }

  function Accrued(st: Store, k: Key, asOf: Date, current: Option<Balance>): Balance
    requires k.emp in st.employees
  {
    var b := if current.Some? then current.value else NewBalance(DaysOf(BasePolicy(st, k)));
    WithCarry(st, k, b.(entitled := Max(b.entitled, DaysOf(PolicyAt(st, k.emp, k.ltype, asOf)))))
  }

  function Unused(b: Balance): nat { Max(0, b.carried - b.used - b.pending) }

  function Expired(b: Balance): Balance { b.(expired := b.expired + Unused(b), closed := true) }

  predicate CanApply(job: JobCode, st: Store, k: Key) {
    if job.AccrualJob? then k.emp in st.employees else k in st.balances
  }

  function Effect(job: JobCode, st: Store, asOf: Date, k: Key): Balance
    requires CanApply(job, st, k)
  {
    if job.AccrualJob? then Accrued(st, k, asOf, Lookup(st, k)) else Expired(st.balances[k])
  }

  predicate Reports(job: JobCode, st: Store, asOf: Date, k: Key, kind: Kind)
    requires CanApply(job, st, k)
  {
    match kind
    case BalanceCreated => job.AccrualJob? && k !in st.balances
    case EntitlementIncreased =>
      job.AccrualJob? && DaysOf(PolicyAt(st, k.emp, k.ltype, asOf)) >
                         (if k in st.balances then st.balances[k].entitled else DaysOf(BasePolicy(st, k)))
    case CarriedOver => job.AccrualJob? && Carry(st, k) > 0 && (k in st.balances ==> !st.balances[k].applied)
    case CarryOverExpired => job.ExpiryJob? && Unused(st.balances[k]) > 0
    case CarryOverFullyUsed => job.ExpiryJob? && Unused(st.balances[k]) == 0
  }

  // ---- what a job does to a range of employees ----

  function AccrualEmployees(st: Store, asOf: Date, lo: EmpId, hi: EmpId): set<EmpId> {
    set e | e in st.employees && lo <= e <= hi && IsActiveAt(st.employees[e], asOf)
  }

  function AccrualTypes(st: Store): set<TypeId> {
    set t | t in st.types && st.types[t].active && st.types[t].requiresBalance
  }

  function Cross(es: set<EmpId>, ts: set<TypeId>, year: int): set<Key> {
    set e, t | e in es && t in ts :: Key(e, t, year)
  }

  predicate FallsDue(st: Store, asOf: Date, k: Key)
    requires k in st.balances
  {
    var b := st.balances[k];
    k.year == Year(asOf) && b.expiresOn.Some? && b.expiresOn.value <= asOf && !b.closed
  }

  /** The balance rows a chunk works on. */
  function ChunkKeys(job: JobCode, st: Store, asOf: Date, lo: EmpId, hi: EmpId): (ks: set<Key>)
    ensures forall k :: k in ks ==> CanApply(job, st, k) && lo <= k.emp <= hi && k.year == Year(asOf)
  {
    if job.AccrualJob? then Cross(AccrualEmployees(st, asOf, lo, hi), AccrualTypes(st), Year(asOf))
    else set k | k in st.balances && lo <= k.emp <= hi && k.ltype in st.types && FallsDue(st, asOf, k)
  }

  function EffectOf(job: JobCode, st: Store, asOf: Date): Key --> Balance {
    (k: Key) requires CanApply(job, st, k) => Effect(job, st, asOf, k)
  }

  /** The store with the job applied to some rows, each computed from the store before. */
  function Applied(job: JobCode, st: Store, asOf: Date, keys: set<Key>): Store
    requires forall k :: k in keys ==> CanApply(job, st, k)
  {
    st.(balances := Put(st.balances, keys, EffectOf(job, st, asOf)))
  }

  function ReportsKind(job: JobCode, st: Store, asOf: Date, kind: Kind): Key --> bool {
    (k: Key) requires CanApply(job, st, k) => Reports(job, st, asOf, k, kind)
  }

  /** How many of the rows report each kind of change. */
  function CountsFor(job: JobCode, st: Store, asOf: Date, keys: set<Key>): Counts
    requires forall k :: k in keys ==> CanApply(job, st, k)
  {
    Counts(Count(keys, ReportsKind(job, st, asOf, BalanceCreated)),
           Count(keys, ReportsKind(job, st, asOf, EntitlementIncreased)),
           Count(keys, ReportsKind(job, st, asOf, CarriedOver)),
           Count(keys, ReportsKind(job, st, asOf, CarryOverExpired)),
           Count(keys, ReportsKind(job, st, asOf, CarryOverFullyUsed)))
  }

  /** One chunk: the store after it and its counts. */
  function RunChunk(job: JobCode, st: Store, asOf: Date, lo: EmpId, hi: EmpId): (Store, Counts) {
    var keys := ChunkKeys(job, st, asOf, lo, hi);
    (Applied(job, st, asOf, keys), CountsFor(job, st, asOf, keys))
  }

  // ---- the loops of the two jobs ----

  function Once(b: bool): nat { if b then 1 else 0 }

  /** What one row adds to the counts. */
  function RowCounts(job: JobCode, st: Store, asOf: Date, k: Key): Counts
    requires CanApply(job, st, k)
  {
    Counts(Once(Reports(job, st, asOf, k, BalanceCreated)), Once(Reports(job, st, asOf, k, EntitlementIncreased)),
           Once(Reports(job, st, asOf, k, CarriedOver)), Once(Reports(job, st, asOf, k, CarryOverExpired)),
           Once(Reports(job, st, asOf, k, CarryOverFullyUsed)))
  }

  lemma AppliedAdd(job: JobCode, st: Store, asOf: Date, done: set<Key>, k: Key)
    requires k !in done && CanApply(job, st, k) && forall d :: d in done ==> CanApply(job, st, d)
    ensures var before := Applied(job, st, asOf, done);
            Applied(job, st, asOf, done + {k}) == before.(balances := before.balances[k := Effect(job, st, asOf, k)])
  {
    hide Put, Effect;
    PutAdd(st.balances, done, k, EffectOf(job, st, asOf));
  }

  lemma CountsAdd(job: JobCode, st: Store, asOf: Date, done: set<Key>, k: Key)
    requires k !in done && CanApply(job, st, k) && forall d :: d in done ==> CanApply(job, st, d)
    ensures CountsFor(job, st, asOf, done + {k}) == CountsFor(job, st, asOf, done).Plus(RowCounts(job, st, asOf, k))
  {
    hide Count, Reports;
    CountAdd(done, k, ReportsKind(job, st, asOf, BalanceCreated));
    CountAdd(done, k, ReportsKind(job, st, asOf, EntitlementIncreased));
    CountAdd(done, k, ReportsKind(job, st, asOf, CarriedOver));
    CountAdd(done, k, ReportsKind(job, st, asOf, CarryOverExpired));
    CountAdd(done, k, ReportsKind(job, st, asOf, CarryOverFullyUsed));
  }

  /** The two policies of a row: at the start of the year and at the date. */
  method BaseAndTarget(st: Store, k: Key, asOf: Date) returns (base: Option<Policy>, target: Option<Policy>)
    requires k.emp in st.employees
    ensures base == BasePolicy(st, k) && target == PolicyAt(st, k.emp, k.ltype, asOf)
  {
    hide PickPolicy, JobAsOf, ServiceMonths, JanFirst;
    var e := st.employees[k.emp];
    var referenceDate := Max(JanFirst(k.year), e.hireDate);
    var refJob, curJob := JobAsOf(e.jobs, referenceDate), JobAsOf(e.jobs, asOf);
    base := PickPolicy(st.policies, k.ltype, if refJob.Some? then Some(refJob.value.grade) else None,
                       ServiceMonths(e.hireDate, referenceDate));
    target := PickPolicy(st.policies, k.ltype, if curJob.Some? then Some(curJob.value.grade) else None,
                         ServiceMonths(e.hireDate, asOf));
  }

  /** Last year's remainder, once. */
  method CarryOver(st: Store, k: Key, base: Option<Policy>, balance: Balance) returns (balance': Balance, carried: bool)
    requires k.emp in st.employees && base == BasePolicy(st, k)
    ensures balance' == WithCarry(st, k, balance)
    ensures carried <==> !balance.applied && Carry(st, k) > 0
  {
    hide BasePolicy, CarryOverExpiry;
    balance', carried := balance, false;
    if !balance.applied {
      var lastYear := Lookup(st, k.(year := k.year - 1));
      var carry := 0;
      if lastYear.Some? && base.Some? {
        carry := Min(Max(lastYear.value.Available(), 0), base.value.maxCarry);
      }
      if carry > 0 {
        balance' := balance.(carried := balance.carried + carry,
                             expiresOn := CarryOverExpiry(k.year, base.value.expiryMonths));
        carried := true;
      }
      balance' := balance'.(applied := true);
    }
  }

  /** One step of the accrual loop: the row's new value and the counts with what it adds. */
  method AccrueRow(st: Store, k: Key, asOf: Date, counts: Counts) returns (balance: Balance, counts': Counts)
    requires k.emp in st.employees
    ensures balance == Effect(AccrualJob, st, asOf, k)
    ensures counts' == counts.Plus(RowCounts(AccrualJob, st, asOf, k))
  {
    counts' := counts;
    var base, target := BaseAndTarget(st, k, asOf);
    hide PolicyAt, BasePolicy, Carry, WithCarry;
    var targetDays := if target.Some? then target.value.annualDays else 0;
    if k in st.balances {
      balance := st.balances[k];
    } else {
      balance := NewBalance(DaysOf(base));
      counts' := counts'.Add(BalanceCreated);
    }
    if targetDays > balance.entitled {
      counts' := counts'.Add(EntitlementIncreased);
      balance := balance.(entitled := targetDays);
    }
    var carried;
    balance, carried := CarryOver(st, k, base, balance);
    if carried { counts' := counts'.Add(CarriedOver); }
  }

  /** The store and counts once a set of rows has been worked on. */
  predicate Progress(job: JobCode, st: Store, asOf: Date, done: set<Key>, st': Store, counts: Counts) {
    && (forall k :: k in done ==> CanApply(job, st, k))
    && st' == Applied(job, st, asOf, done)
    && counts == CountsFor(job, st, asOf, done)
  }

  lemma ProgressStart(job: JobCode, st: Store, asOf: Date)
    ensures Progress(job, st, asOf, {}, st, ZERO)
  {
    assert Applied(job, st, asOf, {}).balances == st.balances;
  }

  lemma ProgressAdd(job: JobCode, st: Store, asOf: Date, done: set<Key>, st': Store, counts: Counts, k: Key)
    requires Progress(job, st, asOf, done, st', counts) && k !in done && CanApply(job, st, k)
    ensures Progress(job, st, asOf, done + {k}, st'.(balances := st'.balances[k := Effect(job, st, asOf, k)]),
                     counts.Plus(RowCounts(job, st, asOf, k)))
  {
    hide Applied, CountsFor, Effect, RowCounts;
    AppliedAdd(job, st, asOf, done, k);
    CountsAdd(job, st, asOf, done, k);
  }

  method AccrueStep(st: Store, k: Key, asOf: Date, ghost done: set<Key>, st0: Store, counts0: Counts)
    returns (st': Store, counts: Counts)
    requires k.emp in st.employees && k !in done
    requires Progress(AccrualJob, st, asOf, done, st0, counts0)
    ensures Progress(AccrualJob, st, asOf, done + {k}, st', counts)
  {
    hide Applied, CountsFor, Effect, RowCounts;
    var balance;
    balance, counts := AccrueRow(st, k, asOf, counts0);
    st' := st0.(balances := st0.balances[k := balance]);
    ProgressAdd(AccrualJob, st, asOf, done, st0, counts0, k);
  }

  /** The inner loop, over the leave types for one employee. */
  method AccrueEmployee(st: Store, e: EmpId, leaveTypes: set<TypeId>, asOf: Date, ghost done: set<Key>,
                        st0: Store, counts0: Counts) returns (st': Store, counts: Counts)
    requires e in st.employees && forall k :: k in done ==> k.emp != e
    requires Progress(AccrualJob, st, asOf, done, st0, counts0)
    ensures Progress(AccrualJob, st, asOf, done + Cross({e}, leaveTypes, Year(asOf)), st', counts)
  {
    hide Applied, CountsFor;
    st', counts := st0, counts0;
    var types := leaveTypes;
    ghost var seen := done;
    while types != {}
      invariant types <= leaveTypes && seen == done + Cross({e}, leaveTypes - types, Year(asOf))
      invariant Progress(AccrualJob, st, asOf, seen, st', counts)
    {
      var t :| t in types;
      st', counts := AccrueStep(st, Key(e, t, Year(asOf)), asOf, seen, st', counts);
      seen := seen + {Key(e, t, Year(asOf))};
      types := types - {t};
    }
    assert leaveTypes - types == leaveTypes;
  }

  /** The nested loops over employees and leave types, in whatever order the rows come. */
  method Accrue(st: Store, lo: EmpId, hi: EmpId, asOf: Date) returns (st': Store, counts: Counts)
    ensures (st', counts) == RunChunk(AccrualJob, st, asOf, lo, hi)
  {
    hide Applied, CountsFor, JobAsOf;
    var leaveTypes := set t | t in st.types && st.types[t].active && st.types[t].requiresBalance;
    var rows := set e | e in st.employees && lo <= e <= hi &&
                        JobAsOf(st.employees[e].jobs, asOf).Some?
                        && JobAsOf(st.employees[e].jobs, asOf).value.status.Active?;
    assert leaveTypes == AccrualTypes(st) && rows == AccrualEmployees(st, asOf, lo, hi);
    st', counts := st, ZERO;
    ghost var done: set<Key> := {};
    ProgressStart(AccrualJob, st, asOf);
    var rest := rows;
    while rest != {}
      invariant rest <= rows && done == Cross(rows - rest, leaveTypes, Year(asOf))
      invariant Progress(AccrualJob, st, asOf, done, st', counts)
    {
      var e :| e in rest;
      st', counts := AccrueEmployee(st, e, leaveTypes, asOf, done, st', counts);
      done := done + Cross({e}, leaveTypes, Year(asOf));
      rest := rest - {e};
    }
    assert rows - rest == rows;
  }

  method ExpireStep(st: Store, k: Key, asOf: Date, ghost done: set<Key>, st0: Store, counts0: Counts)
    returns (st': Store, counts: Counts)
    requires k in st.balances && k !in done
    requires Progress(ExpiryJob, st, asOf, done, st0, counts0)
    ensures Progress(ExpiryJob, st, asOf, done + {k}, st', counts)
  {
    hide Applied, CountsFor;
    var balance := st.balances[k];
    var unused := Max(0, balance.carried - balance.used - balance.pending);
    balance := balance.(expired := balance.expired + unused);
    balance := balance.(closed := true);
    counts := counts0.Add(if unused != 0 then CarryOverExpired else CarryOverFullyUsed);
    st' := st0.(balances := st0.balances[k := balance]);
    ProgressAdd(ExpiryJob, st, asOf, done, st0, counts0, k);
  }

  /** The loop over the balances whose carry-over falls due. */
  method ExpireCarryOver(st: Store, lo: EmpId, hi: EmpId, asOf: Date) returns (st': Store, counts: Counts)
    ensures (st', counts) == RunChunk(ExpiryJob, st, asOf, lo, hi)
  {
    hide Applied, CountsFor;
    var due := set k | k in st.balances && lo <= k.emp <= hi && k.ltype in st.types && k.year == Year(asOf)
                       && st.balances[k].expiresOn.Some? && st.balances[k].expiresOn.value <= asOf
                       && !st.balances[k].closed;
    assert due == ChunkKeys(ExpiryJob, st, asOf, lo, hi);
    st', counts := st, ZERO;
    ProgressStart(ExpiryJob, st, asOf);
    var rest := due;
    assert due - rest == {};
    while rest != {}
      invariant rest <= due
      invariant Progress(ExpiryJob, st, asOf, due - rest, st', counts)
    {
      var k :| k in rest;
      st', counts := ExpireStep(st, k, asOf, due - rest, st', counts);
      assert due - (rest - {k}) == (due - rest) + {k};
      rest := rest - {k};
    }
    assert due - rest == due;
  }
}
