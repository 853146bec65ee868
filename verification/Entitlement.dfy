/** What an employee is entitled to on a date, read directly from the job history and the policies, and that the
    accrual, the expiry and a page view write exactly that. */
module Entitlement {
  import opened Common
  import opened Calendar
  import opened LeaveRules
  import opened JobHistory
  import opened LeaveAccrual
  import opened AccrualLaws

  // ---- the row in force and its grade ----

  /** The row is effective by the date, and no row that is comes after it, by date and then by number. */
  predicate InForce(rows: seq<JobRow>, d: Date, r: JobRow) {
    r in rows && r.effdt <= d
    && forall q :: q in rows && q.effdt <= d ==> q.effdt < r.effdt || (q.effdt == r.effdt && q.effseq <= r.effseq)
  }

  lemma InForceIs(rows: seq<JobRow>, d: Date, r: JobRow)
    requires Increasing(rows)
    ensures InForce(rows, d, r) <==> JobAsOf(rows, d) == Some(r)
  {
    JobAsOfIsLatest(rows, d);
    var best := JobAsOf(rows, d);
    if InForce(rows, d, r) {
      var i :| 0 <= i < |rows| && rows[i] == r;
      var j :| 0 <= j < |rows| && rows[j] == best.value;
      assert i == j;
    }
  }

  lemma NobodyInForce(rows: seq<JobRow>, d: Date)
    ensures JobAsOf(rows, d).None? <==> forall r :: r in rows ==> r.effdt > d
  {
    JobAsOfIsLatest(rows, d);
  }

  /** `t` is `s` in capitals. */
  predicate InCapitals(s: string, t: string) {
    |t| == |s|
    && forall i :: 0 <= i < |s| ==> if 'a' <= s[i] <= 'z' then t[i] as int == s[i] as int - 32 else t[i] == s[i]
  }

  lemma {:induction false} UpperIs(s: string, t: string)
    ensures InCapitals(s, t) <==> t == Upper(s)
  {
    if s != "" && t != "" {
      UpperIs(s[1..], t[1..]);
      assert s == [s[0]] + s[1..] && t == [t[0]] + t[1..];
    }
  }

  /** The grade on a date; none before the first row. */
  predicate GradeOn(e: Employee, d: Date, grade: Option<string>) {
    if grade.Some? then exists r :: r in e.jobs && InForce(e.jobs, d, r) && r.grade == grade.value
    else forall r :: r in e.jobs ==> r.effdt > d
  }

  lemma GradeOnIs(e: Employee, d: Date, grade: Option<string>)
    requires Increasing(e.jobs)
    ensures GradeOn(e, d, grade) <==> grade == GradeAt(e, d)
  {
    hide InForce, JobAsOf;
    NobodyInForce(e.jobs, d);
    forall r ensures InForce(e.jobs, d, r) <==> JobAsOf(e.jobs, d) == Some(r) { InForceIs(e.jobs, d, r); }
    InForceIsARow(e.jobs, d);
  }

  lemma InForceIsARow(rows: seq<JobRow>, d: Date)
    ensures JobAsOf(rows, d).Some? ==> JobAsOf(rows, d).value in rows
  {
    JobAsOfIsLatest(rows, d);
  }

  // ---- the policy in effect ----

  /** The policy is of this type, for everybody or for the grade, and its months of service have passed. */
  predicate Covers(p: Policy, ltype: TypeId, grade: Option<string>, hired: Date, d: Date) {
    && p.ltype == ltype
    && (p.grade.Some? ==> grade.Some? && grade.value != "" && InCapitals(grade.value, p.grade.value))
    && (p.minMonths == 0 || MonthDayReached(hired, p.minMonths, d))
  }

  /** One for the grade if there is any, and among its like the one that asks for the most months. */
  predicate MostSpecific(ps: seq<Policy>, p: Policy, ltype: TypeId, grade: Option<string>, hired: Date, d: Date) {
    && p in ps && Covers(p, ltype, grade, hired, d)
    && forall q :: q in ps && Covers(q, ltype, grade, hired, d) ==>
         (q.grade.Some? ==> p.grade.Some?) && (q.grade.Some? == p.grade.Some? ==> q.minMonths <= p.minMonths)
  }

  lemma CoversIs(p: Policy, ltype: TypeId, grade: Option<string>, hired: Date, d: Date)
    ensures Covers(p, ltype, grade, hired, d) <==> Applies(p, ltype, grade, ServiceMonths(hired, d))
  {
    hide Upper, InCapitals, MonthDayReached, ServiceMonths;
    ServiceMonthsCountsFullMonths(hired, d, p.minMonths);
    if grade.Some? && p.grade.Some? { UpperIs(grade.value, p.grade.value); }
  }

  lemma MostSpecificIs(ps: seq<Policy>, p: Policy, ltype: TypeId, grade: Option<string>, hired: Date, d: Date)
    requires UniqueRules(ps)
    ensures MostSpecific(ps, p, ltype, grade, hired, d) <==>
            PickPolicy(ps, ltype, grade, ServiceMonths(hired, d)) == Some(p)
    ensures PickPolicy(ps, ltype, grade, ServiceMonths(hired, d)).None? <==>
            forall q :: q in ps ==> !Covers(q, ltype, grade, hired, d)
  {
    hide Applies, Covers, ServiceMonths;
    var months := ServiceMonths(hired, d);
    forall q ensures Covers(q, ltype, grade, hired, d) <==> Applies(q, ltype, grade, months) {
      CoversIs(q, ltype, grade, hired, d);
    }
    PickPolicyIsMostSpecific(ps, ltype, grade, months);
    var best := PickPolicy(ps, ltype, grade, months);
    if MostSpecific(ps, p, ltype, grade, hired, d) { OnlyOneMostSpecific(ps, p, best.value, ltype, grade, hired, d); }
  }

  lemma OnlyOneMostSpecific(ps: seq<Policy>, p: Policy, q: Policy, ltype: TypeId, grade: Option<string>, hired: Date,
                            d: Date)
    requires UniqueRules(ps)
    requires MostSpecific(ps, p, ltype, grade, hired, d) && MostSpecific(ps, q, ltype, grade, hired, d)
    ensures p == q
  {
    hide MonthDayReached;
    if p.grade.Some? {
      UpperIs(grade.value, p.grade.value);
      UpperIs(grade.value, q.grade.value);
    }
    hide Upper, InCapitals;
    assert GradeKey(p) == GradeKey(q);
    var i :| 0 <= i < |ps| && ps[i] == p;
    var j :| 0 <= j < |ps| && ps[j] == q;
    assert i == j;
  }

  /** The policy in effect for the employee on a date, or none. */
  ghost predicate InEffect(st: Store, emp: EmpId, ltype: TypeId, d: Date, p: Option<Policy>)
    requires emp in st.employees
  {
    var e := st.employees[emp];
    exists grade :: GradeOn(e, d, grade) &&
      if p.Some? then MostSpecific(st.policies, p.value, ltype, grade, e.hireDate, d)
      else forall q :: q in st.policies ==> !Covers(q, ltype, grade, e.hireDate, d)
  }

  lemma InEffectIs(st: Store, emp: EmpId, ltype: TypeId, d: Date, p: Option<Policy>)
    requires emp in st.employees && Increasing(st.employees[emp].jobs) && UniqueRules(st.policies)
    ensures InEffect(st, emp, ltype, d, p) <==> p == PolicyAt(st, emp, ltype, d)
  {
    hide GradeOn, MostSpecific, Covers, PickPolicy, GradeAt, ServiceMonths;
    var e := st.employees[emp];
    forall grade ensures GradeOn(e, d, grade) <==> grade == GradeAt(e, d) { GradeOnIs(e, d, grade); }
    assert GradeOn(e, d, GradeAt(e, d));
    if p.Some? {
      MostSpecificIs(st.policies, p.value, ltype, GradeAt(e, d), e.hireDate, d);
    } else {
      SomeOrNone(st.policies, ltype, GradeAt(e, d), e.hireDate, d);
    }
  }

  lemma SomeOrNone(ps: seq<Policy>, ltype: TypeId, grade: Option<string>, hired: Date, d: Date)
    requires UniqueRules(ps)
    ensures PickPolicy(ps, ltype, grade, ServiceMonths(hired, d)).None? <==>
            forall q :: q in ps ==> !Covers(q, ltype, grade, hired, d)
  {
    hide PickPolicy, Covers, MostSpecific, ServiceMonths;
    MostSpecificIs(ps, Policy(0, None, 0, 0, 0, 0), ltype, grade, hired, d);
  }

  // ---- a row when it is created ----

  /** The day a row's first entitlement is taken at: the start of its year, or the hire date after it. */
  function FirstDay(hired: Date, year: int): Date {
    if hired > Ymd(year, 1, 1) then hired else Ymd(year, 1, 1)
  }

  function DaysGranted(p: Option<Policy>): nat { if p.Some? then p.value.annualDays else 0 }

  /** Entitled to what the policy grants, and nothing else on it. */
  predicate IsFresh(b: Balance, p: Option<Policy>) {
    && b.entitled == DaysGranted(p)
    && b.carried == b.adjusted == b.used == b.pending == b.expired == 0
    && !b.applied && b.expiresOn.None? && !b.closed
  }

  /** A row a page view or a request brings into being is fresh, with the policy in effect on its first day. */
  lemma CreatedIsFresh(st: Store, k: Key, p: Option<Policy>)
    requires k.emp in st.employees && k !in st.balances
    requires Increasing(st.employees[k.emp].jobs) && UniqueRules(st.policies)
    requires InEffect(st, k.emp, k.ltype, FirstDay(st.employees[k.emp].hireDate, k.year), p)
    ensures var st' := WithBalance(st, k);
            && st' == st.(balances := st'.balances)
            && st'.balances.Keys == st.balances.Keys + {k} && IsFresh(st'.balances[k], p)
            && forall j :: j in st.balances ==> st'.balances[j] == st.balances[j]
  {
    hide InEffect, EntitlementFor, PolicyAt, Ymd;
    EntitlementIsBase(st, k);
    InEffectIs(st, k.emp, k.ltype, FirstDay(st.employees[k.emp].hireDate, k.year), p);
  }

  // ---- what the accrual does to a row ----

  /** The first of a month, so many months after the start of the year; none for none. */
  predicate FallsOn(due: Option<Date>, year: int, months: nat) {
    if months == 0 then due.None?
    else due.Some? && Day(due.value) == 1 && 12 * Year(due.value) + Month(due.value) == 12 * year + 1 + months
  }

  lemma DueDateIs(year: int, months: nat)
    ensures FallsOn(CarryOverExpiry(year, months), year, months)
  {
    hide Year, Month, Day, Ymd, MonthLength;
    if months > 0 {
      var y, m := year + months / 12, months % 12 + 1;
      MonthLengthsAre(y, m);
      YmdReadsBack(y, m, 1);
    }
  }

  /** The days on a row that are neither used nor asked for nor expired. */
  function DaysLeft(b: Balance): int { b.entitled + b.carried + b.adjusted - (b.used + b.pending + b.expired) }

  /** What is left of last year's row, as far as the policy lets it be carried over. */
  function Remainder(st: Store, k: Key, base: Option<Policy>): nat {
    var last := Key(k.emp, k.ltype, k.year - 1);
    if last !in st.balances || base.None? || DaysLeft(st.balances[last]) <= 0 then 0
    else if DaysLeft(st.balances[last]) <= base.value.maxCarry then DaysLeft(st.balances[last])
    else base.value.maxCarry
  }

  /** The greater entitlement of the two dates or of the row, and the remainder once. */
  predicate IsAccrued(st: Store, k: Key, b: Balance, b': Balance, base: Option<Policy>, target: Option<Policy>) {
    && b'.entitled == (if DaysGranted(target) > b.entitled then DaysGranted(target) else b.entitled)
    && b' == b.(entitled := b'.entitled, carried := b'.carried, applied := true, expiresOn := b'.expiresOn)
    && b'.carried == b.carried + (if b.applied then 0 else Remainder(st, k, base))
    && if b'.carried > b.carried then FallsOn(b'.expiresOn, k.year, base.value.expiryMonths)
       else b'.expiresOn == b.expiresOn
  }

  /** Employees of the range active on the date, and active types with a balance, for the year of the date. */
  predicate WorkedOn(st: Store, asOf: Date, lo: EmpId, hi: EmpId, k: Key) {
    && k.year == Year(asOf) && lo <= k.emp <= hi && k.emp in st.employees
    && (exists r :: r in st.employees[k.emp].jobs && InForce(st.employees[k.emp].jobs, asOf, r) && r.status.Active?)
    && k.ltype in st.types && st.types[k.ltype].active && st.types[k.ltype].requiresBalance
  }

  lemma WorkedOnIs(st: Store, asOf: Date, lo: EmpId, hi: EmpId, k: Key)
    requires k.emp in st.employees ==> Increasing(st.employees[k.emp].jobs)
    ensures WorkedOn(st, asOf, lo, hi, k) <==> k in ChunkKeys(AccrualJob, st, asOf, lo, hi)
  {
    hide InForce, JobAsOf, Year;
    if k.emp in st.employees {
      var rows := st.employees[k.emp].jobs;
      forall r ensures InForce(rows, asOf, r) <==> JobAsOf(rows, asOf) == Some(r) { InForceIs(rows, asOf, r); }
      InForceIsARow(rows, asOf);
    }
  }

  lemma AccruedIs(st: Store, k: Key, asOf: Date)
    requires k.emp in st.employees
    ensures var b := if k in st.balances then st.balances[k] else NewBalance(DaysGranted(BasePolicy(st, k)));
            IsAccrued(st, k, b, Effect(AccrualJob, st, asOf, k), BasePolicy(st, k), PolicyAt(st, k.emp, k.ltype, asOf))
  {
    hide PolicyAt, BasePolicy, CarryOverExpiry, FallsOn;
    if BasePolicy(st, k).Some? { DueDateIs(k.year, BasePolicy(st, k).value.expiryMonths); }
  }

  /** An accrual over a range leaves on each row it works on the greater of the entitlement there, or at the row's
      first day if there was none, and the entitlement on the date, and last year's remainder once; it leaves all
      else alone. */
  lemma AccrualMeansIt(st: Store, asOf: Date, lo: EmpId, hi: EmpId, k: Key, base: Option<Policy>,
                       target: Option<Policy>)
    requires UniqueRules(st.policies) && (k.emp in st.employees ==> Increasing(st.employees[k.emp].jobs))
    requires k.emp in st.employees ==>
               && InEffect(st, k.emp, k.ltype, FirstDay(st.employees[k.emp].hireDate, k.year), base)
               && InEffect(st, k.emp, k.ltype, asOf, target)
    ensures var st' := RunChunk(AccrualJob, st, asOf, lo, hi).0; st' == st.(balances := st'.balances)
    ensures var st' := RunChunk(AccrualJob, st, asOf, lo, hi).0;
            WorkedOn(st, asOf, lo, hi, k) ==>
              && k in st'.balances
              && if k in st.balances then IsAccrued(st, k, st.balances[k], st'.balances[k], base, target)
                 else exists b: Balance :: IsFresh(b, base) && IsAccrued(st, k, b, st'.balances[k], base, target)
    ensures var st' := RunChunk(AccrualJob, st, asOf, lo, hi).0;
            !WorkedOn(st, asOf, lo, hi, k) ==>
              && (k in st'.balances <==> k in st.balances)
              && (k in st.balances ==> st'.balances[k] == st.balances[k])
  {
    hide InEffect, RunChunk, WorkedOn, IsAccrued, PolicyAt, Ymd, ChunkKeys, Effect;
    RunChunkRow(AccrualJob, st, asOf, lo, hi, k);
    WorkedOnIs(st, asOf, lo, hi, k);
    if k in ChunkKeys(AccrualJob, st, asOf, lo, hi) {
      InEffectIs(st, k.emp, k.ltype, FirstDay(st.employees[k.emp].hireDate, k.year), base);
      InEffectIs(st, k.emp, k.ltype, asOf, target);
      AccruedIs(st, k, asOf);
      assert IsFresh(NewBalance(DaysGranted(base)), base);
    }
  }

  /** There is always exactly one policy, or none, in effect. */
  lemma OneInEffect(st: Store, emp: EmpId, ltype: TypeId, d: Date)
    requires emp in st.employees && Increasing(st.employees[emp].jobs) && UniqueRules(st.policies)
    ensures exists p :: InEffect(st, emp, ltype, d, p) && forall q :: InEffect(st, emp, ltype, d, q) ==> q == p
  {
    hide InEffect, PolicyAt;
    forall q ensures InEffect(st, emp, ltype, d, q) <==> q == PolicyAt(st, emp, ltype, d) {
      InEffectIs(st, emp, ltype, d, q);
    }
    assert InEffect(st, emp, ltype, d, PolicyAt(st, emp, ltype, d));
  }

  // ---- what the expiry does to a row ----

  /** An expiry over a range closes exactly the rows of the year that are due and open, and what of the carried days
      is neither used nor asked for expires; it leaves all else alone. */
  lemma ExpiryMeansIt(st: Store, asOf: Date, lo: EmpId, hi: EmpId, k: Key)
    ensures var st' := RunChunk(ExpiryJob, st, asOf, lo, hi).0;
            && st' == st.(balances := st'.balances) && st'.balances.Keys == st.balances.Keys
            && (k in st.balances ==>
                 var b, b' := st.balances[k], st'.balances[k];
                 if lo <= k.emp <= hi && k.ltype in st.types && k.year == Year(asOf) && !b.closed
                    && b.expiresOn.Some? && b.expiresOn.value <= asOf
                 then
                   && b' == b.(expired := b'.expired, closed := true)
                   && b'.expired == (if b.carried > b.used + b.pending then b.expired + (b.carried - b.used - b.pending)
                                     else b.expired)
                 else b' == b)
  {
    hide CountsFor, Year;
  }

  // ---- what the counts say ----

  predicate EntitlementRaised(st: Store, st': Store, k: Key) {
    k in st'.balances
    && if k in st.balances then st'.balances[k].entitled > st.balances[k].entitled
       else k.emp in st.employees && st'.balances[k].entitled > EntitlementFor(st, k)
  }

  predicate CarriedRaised(st: Store, st': Store, k: Key) {
    k in st'.balances && st'.balances[k].carried > if k in st.balances then st.balances[k].carried else 0
  }

  predicate ExpiredRaised(st: Store, st': Store, k: Key) {
    k in st.balances && k in st'.balances && st'.balances[k].expired > st.balances[k].expired
  }

  predicate ClosedOnly(st: Store, st': Store, k: Key) {
    && k in st.balances && k in st'.balances && st'.balances[k].closed && !st.balances[k].closed
    && st'.balances[k].expired == st.balances[k].expired
  }

  /** What a row reports is what happened to it. */
  lemma ReportsTellChange(job: JobCode, st: Store, asOf: Date, lo: EmpId, hi: EmpId, k: Key)
    ensures var st', keys := RunChunk(job, st, asOf, lo, hi).0, ChunkKeys(job, st, asOf, lo, hi);
            && (k in keys ==> k in st'.balances)
            && (k in st'.balances && k !in st.balances <==> k in keys && Reports(job, st, asOf, k, BalanceCreated))
            && (EntitlementRaised(st, st', k) <==> k in keys && Reports(job, st, asOf, k, EntitlementIncreased))
            && (CarriedRaised(st, st', k) <==> k in keys && Reports(job, st, asOf, k, CarriedOver))
            && (ExpiredRaised(st, st', k) <==> k in keys && Reports(job, st, asOf, k, CarryOverExpired))
            && (ClosedOnly(st, st', k) <==> k in keys && Reports(job, st, asOf, k, CarryOverFullyUsed))
  {
    hide RunChunk, ChunkKeys, PolicyAt, BasePolicy, CarryOverExpiry, EntitlementFor;
    RunChunkRow(job, st, asOf, lo, hi, k);
    if k.emp in st.employees { EntitlementIsBase(st, k); }
    if k in ChunkKeys(job, st, asOf, lo, hi) && job.ExpiryJob? { DueIsOpen(st, asOf, lo, hi, k); }
  }

  lemma DueIsOpen(st: Store, asOf: Date, lo: EmpId, hi: EmpId, k: Key)
    requires k in ChunkKeys(ExpiryJob, st, asOf, lo, hi)
    ensures k in st.balances && !st.balances[k].closed
  {
    hide Year;
  }

  /** The counts of a chunk tell what it changed: rows that were not there, entitlements raised, days carried over,
      days expired, and rows closed with nothing to expire. */
  lemma CountsTellChanges(job: JobCode, st: Store, asOf: Date, lo: EmpId, hi: EmpId)
    ensures var (st', counts) := RunChunk(job, st, asOf, lo, hi);
            && counts.created == |st'.balances.Keys - st.balances.Keys|
            && counts.increased == |set k | k in st'.balances && EntitlementRaised(st, st', k)|
            && counts.carried == |set k | k in st'.balances && CarriedRaised(st, st', k)|
            && counts.expired == |set k | k in st'.balances && ExpiredRaised(st, st', k)|
            && counts.fullyUsed == |set k | k in st'.balances && ClosedOnly(st, st', k)|
  {
    hide ChunkKeys, Reports, EntitlementRaised, CarriedRaised, ExpiredRaised, ClosedOnly, Count, Applied;
    var st', keys := RunChunk(job, st, asOf, lo, hi).0, ChunkKeys(job, st, asOf, lo, hi);
    forall k: Key { ReportsTellChange(job, st, asOf, lo, hi, k); }
    CountIs(keys, ReportsKind(job, st, asOf, BalanceCreated), st'.balances.Keys - st.balances.Keys);
    CountIs(keys, ReportsKind(job, st, asOf, EntitlementIncreased),
            set k | k in st'.balances && EntitlementRaised(st, st', k));
    CountIs(keys, ReportsKind(job, st, asOf, CarriedOver), set k | k in st'.balances && CarriedRaised(st, st', k));
    CountIs(keys, ReportsKind(job, st, asOf, CarryOverExpired), set k | k in st'.balances && ExpiredRaised(st, st', k));
    CountIs(keys, ReportsKind(job, st, asOf, CarryOverFullyUsed), set k | k in st'.balances && ClosedOnly(st, st', k));
  }
}
