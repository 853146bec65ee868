/** What the answers to leave requests, decisions, cancellations and corrections are, rule by rule and field by field.
    */
module RequestOutcomes {
  import opened Common
  import opened Calendar
  import opened LeaveRules
  import opened JobHistory
  import opened LeaveAccrual
  import opened LeaveLedger
  import opened LedgerInvariants
  import LedgerTheorems
  import AccrualLaws
  import opened Entitlement

  // ---- the rules ----

  /** The order in which broken rules are reported. */
  function Rank(v: Violation): nat {
    match v
    case LeaveTypeInactive => 0
    case InvalidDateRange => 1
    case CrossYear => 2
    case RangeTooLong => 3
    case NoWorkingDays => 4
    case EmployeeNotActive => 5
    case StartInPast => 6
    case InsufficientNotice => 7
    case ExceedsMaxDays => 8
    case OverlappingRequest => 9
    case InsufficientBalance => 10
  }

  predicate RangeGood(start: Date, end: Date) { start <= end && Year(start) == Year(end) && end - start < 184 }

  predicate Works(es: map<EmpId, Employee>, emp: EmpId, d: Date) {
    emp in es && exists r :: r in es[emp].jobs && InForce(es[emp].jobs, d, r) && r.status.Active?
  }

  /** The days free on a row, or that would be once it is created. */
  ghost predicate IsFree(st: Store, k: Key, n: int) {
    if k in st.balances then n == DaysLeft(st.balances[k])
    else
      k.emp in st.employees
      && var d := FirstDay(st.employees[k.emp].hireDate, k.year);
         exists p :: InEffect(st, k.emp, k.ltype, d, p) && n == DaysGranted(p)
  }

  predicate Meets(q: Request, emp: EmpId, start: Date, end: Date) {
    q.emp == emp && (q.status.Pending? || q.status.Approved?) && q.start <= end && start <= q.end
  }

  /** A request for these dates breaks the rule; the later rules are only looked at for a good range. */
  ghost predicate Breaks(l: Ledger, emp: EmpId, ltype: TypeId, start: Date, end: Date, today: Date, v: Violation)
    requires ltype in l.store.types
  {
    var t, days := l.store.types[ltype], |Workdays(start, end, l.holidays)|;
    && (Rank(v) > 3 ==> RangeGood(start, end))
    && match v
       case LeaveTypeInactive => !t.active
       case InvalidDateRange => end < start
       case CrossYear => start <= end && Year(start) != Year(end)
       case RangeTooLong => start <= end && Year(start) == Year(end) && end - start >= 184
       case NoWorkingDays => days == 0
       case EmployeeNotActive => !Works(l.store.employees, emp, start)
       case StartInPast => start < today && !t.allowBackdated
       case InsufficientNotice => today <= start < today + t.minNotice
       case ExceedsMaxDays => t.maxDays.Some? && days > t.maxDays.value
       case OverlappingRequest => exists q :: q in l.requests && Meets(q, emp, start, end)
       case InsufficientBalance =>
         t.requiresBalance && exists n :: IsFree(l.store, Key(emp, ltype, Year(start)), n) && days > n
  }

  lemma WorksIs(es: map<EmpId, Employee>, emp: EmpId, d: Date)
    requires emp in es ==> Increasing(es[emp].jobs)
    ensures Works(es, emp, d) <==> emp in es && IsActiveAt(es[emp], d)
  {
    hide InForce, JobAsOf;
    if emp in es {
      forall r
        ensures InForce(es[emp].jobs, d, r) <==> JobAsOf(es[emp].jobs, d) == Some(r)
      {
        InForceIs(es[emp].jobs, d, r);
      }
      InForceIsARow(es[emp].jobs, d);
    }
  }

  lemma FreeIs(l: Ledger, k: Key, st: Store, n: int)
    requires Inv(l) && GetBalance(l.store, k) == Some(st)
    ensures IsFree(l.store, k, n) <==> n == st.balances[k].Available()
  {
    hide Inv, InEffect, EntitlementFor, FirstDay;
    if k !in l.store.balances {
      RowsIncrease(l, k.emp);
      FirstEntitlementIs(l.store, k, n);
    }
  }

  lemma FirstEntitlementIs(st: Store, k: Key, n: int)
    requires k.emp in st.employees && Increasing(st.employees[k.emp].jobs) && UniqueRules(st.policies)
    ensures var d := FirstDay(st.employees[k.emp].hireDate, k.year);
            (exists p :: InEffect(st, k.emp, k.ltype, d, p) && n == DaysGranted(p)) <==> n == EntitlementFor(st, k)
  {
    hide InEffect, EntitlementFor, PolicyAt, Ymd, UniqueRules, Increasing;
    var d := FirstDay(st.employees[k.emp].hireDate, k.year);
    AccrualLaws.EntitlementIsBase(st, k);
    forall p ensures InEffect(st, k.emp, k.ltype, d, p) <==> p == PolicyAt(st, k.emp, k.ltype, d) {
      InEffectIs(st, k.emp, k.ltype, d, p);
    }
    assert InEffect(st, k.emp, k.ltype, d, PolicyAt(st, k.emp, k.ltype, d));
    assert BasePolicy(st, k) == PolicyAt(st, k.emp, k.ltype, d);
  }

  lemma RowsIncrease(l: Ledger, emp: EmpId)
    requires Inv(l)
    ensures emp in l.store.employees ==> Increasing(l.store.employees[emp].jobs)
    ensures UniqueRules(l.store.policies)
  {
    hide BalancesAgree, NoOverlap, RequestOk;
  }

  /** The order of two rules found. */
  predicate InOrder(errors: seq<Violation>) {
    forall i, j :: 0 <= i < j < |errors| ==> Rank(errors[i]) < Rank(errors[j])
  }

  /** Some of the rules `lo` to `hi`, in their order. */
  predicate Ranked(errors: seq<Violation>, lo: nat, hi: nat) {
    InOrder(errors) && forall v :: v in errors ==> lo <= Rank(v) <= hi
  }

  lemma Joined(xs: seq<Violation>, ys: seq<Violation>, lo: nat, mid: nat, hi: nat)
    requires Ranked(xs, lo, mid) && Ranked(ys, mid + 1, hi) && lo <= mid <= hi
    ensures Ranked(xs + ys, lo, hi) && forall v :: v in xs + ys <==> v in xs || v in ys
  {
    hide Rank;
    var all := xs + ys;
    forall i, j | 0 <= i < j < |all| ensures Rank(all[i]) < Rank(all[j]) {
      if i < |xs| <= j { assert xs[i] in xs && ys[j - |xs|] in ys; }
    }
  }

  lemma OneOf(b: bool, v: Violation)
    ensures Ranked(When(b, v), Rank(v), Rank(v)) && forall w :: w in When(b, v) <==> b && w == v
  {}

  lemma FiveJoined(a: seq<Violation>, b: seq<Violation>, c: seq<Violation>, d: seq<Violation>, e: seq<Violation>)
    requires Ranked(a, 4, 4) && Ranked(b, 5, 5) && Ranked(c, 6, 7) && Ranked(d, 8, 8) && Ranked(e, 9, 9)
    ensures Ranked(a + b + c + d + e, 4, 9)
    ensures forall v :: v in a + b + c + d + e <==> v in a || v in b || v in c || v in d || v in e
  {
    hide Ranked;
    Joined(a, b, 4, 4, 5);
    Joined(a + b, c, 4, 5, 7);
    Joined(a + b + c, d, 4, 7, 8);
    Joined(a + b + c + d, e, 4, 8, 9);
  }

  /** The rules that need a good range but no balance, as the checks put them. */
  predicate LaterRule(l: Ledger, emp: EmpId, t: LeaveType, start: Date, end: Date, today: Date, days: nat,
                      v: Violation) {
    match v
    case NoWorkingDays => days == 0
    case EmployeeNotActive => emp !in l.store.employees || !IsActiveAt(l.store.employees[emp], start)
    case StartInPast => start < today && !t.allowBackdated
    case InsufficientNotice => today <= start < today + t.minNotice
    case ExceedsMaxDays => t.maxDays.Some? && days > t.maxDays.value
    case OverlappingRequest => HasOverlap(l.requests, emp, start, end)
    case _ => false
  }

  lemma RequestErrorsAre(l: Ledger, emp: EmpId, t: LeaveType, start: Date, end: Date, today: Date, days: nat)
    ensures var errors := RequestErrors(l, emp, t, start, end, today, days);
            Ranked(errors, 4, 9) && forall v :: v in errors <==> LaterRule(l, emp, t, start, end, today, days, v)
  {
    hide HasOverlap, IsActiveAt, Ranked, When, Rank, CheckNotice;
    var inactive := emp !in l.store.employees || !IsActiveAt(l.store.employees[emp], start);
    OneOf(days == 0, NoWorkingDays);
    OneOf(inactive, EmployeeNotActive);
    NoticeIs(start, today, t.minNotice, t.allowBackdated);
    OneOf(t.maxDays.Some? && days > t.maxDays.value, ExceedsMaxDays);
    OneOf(HasOverlap(l.requests, emp, start, end), OverlappingRequest);
    RanksAre();
    FiveJoined(When(days == 0, NoWorkingDays), When(inactive, EmployeeNotActive),
               Listed(CheckNotice(start, today, t.minNotice, t.allowBackdated)),
               When(t.maxDays.Some? && days > t.maxDays.value, ExceedsMaxDays),
               When(HasOverlap(l.requests, emp, start, end), OverlappingRequest));
  }

  lemma RanksAre()
    ensures Rank(NoWorkingDays) == 4 && Rank(EmployeeNotActive) == 5 && Rank(ExceedsMaxDays) == 8
    ensures Rank(OverlappingRequest) == 9
  {}

  lemma LaterRuleIs(l: Ledger, emp: EmpId, ltype: TypeId, start: Date, end: Date, today: Date, v: Violation)
    requires Inv(l) && ltype in l.store.types && RangeGood(start, end)
    ensures LaterRule(l, emp, l.store.types[ltype], start, end, today, |Workdays(start, end, l.holidays)|, v) <==>
            4 <= Rank(v) <= 9 && Breaks(l, emp, ltype, start, end, today, v)
  {
    hide Inv, HasOverlap, IsActiveAt, Workdays, Year, Works, IsFree, Meets;
    RowsIncrease(l, emp);
    WorksIs(l.store.employees, emp, start);
    MeetsIs(l, emp, start, end);
  }

  lemma GoodIsOrdered(start: Date, end: Date)
    requires RangeGood(start, end)
    ensures start <= end && CheckRange(start, end).None?
  {}

  lemma NoticeIs(start: Date, today: Date, minNotice: nat, allowBackdated: bool)
    ensures var c := Listed(CheckNotice(start, today, minNotice, allowBackdated));
            Ranked(c, 6, 7)
            && (forall v :: v in c <==> (v == StartInPast && start < today && !allowBackdated)
                                        || (v == InsufficientNotice && today <= start < today + minNotice))
  {}

  lemma RangeErrorIs(l: Ledger, emp: EmpId, ltype: TypeId, start: Date, end: Date, today: Date)
    requires ltype in l.store.types
    ensures var c := Listed(CheckRange(start, end));
            Ranked(c, 1, 3)
            && (forall v :: v in c <==> 1 <= Rank(v) <= 3 && Breaks(l, emp, ltype, start, end, today, v))
            && (c == [] <==> RangeGood(start, end))
  {
    hide Year, Works, IsFree, Meets, Workdays;
  }

  lemma BalanceErrorIs(l: Ledger, emp: EmpId, ltype: TypeId, start: Date, end: Date, today: Date, st: Store)
    requires Inv(l) && ltype in l.store.types && RangeGood(start, end) && l.store.types[ltype].requiresBalance
    requires GetBalance(l.store, Key(emp, ltype, Year(start))) == Some(st)
    ensures |Workdays(start, end, l.holidays)| > st.balances[Key(emp, ltype, Year(start))].Available() <==>
            Breaks(l, emp, ltype, start, end, today, InsufficientBalance)
  {
    hide Inv, Year, Works, IsFree, Meets, Workdays, WithBalance;
    var k := Key(emp, ltype, Year(start));
    HasRow(l.store, k);
    var free := st.balances[k].Available();
    forall n ensures IsFree(l.store, k, n) <==> n == free { FreeIs(l, k, st, n); }
    assert IsFree(l.store, k, free);
  }

  lemma HasRow(st: Store, k: Key)
    requires GetBalance(st, k).Some?
    ensures k in GetBalance(st, k).value.balances
  {}

  /** The first two checks. */
  lemma FirstErrorsAre(l: Ledger, emp: EmpId, ltype: TypeId, start: Date, end: Date, today: Date)
    requires ltype in l.store.types
    ensures var first := When(!l.store.types[ltype].active, LeaveTypeInactive) + Listed(CheckRange(start, end));
            Ranked(first, 0, 3)
            && forall v :: v in first <==> Rank(v) <= 3 && Breaks(l, emp, ltype, start, end, today, v)
  {
    hide Year, Works, IsFree, Meets, Workdays, Ranked, CheckRange, When;
    OneOf(!l.store.types[ltype].active, LeaveTypeInactive);
    RangeErrorIs(l, emp, ltype, start, end, today);
    Joined(When(!l.store.types[ltype].active, LeaveTypeInactive), Listed(CheckRange(start, end)), 0, 0, 3);
  }

  lemma LateRulesNeedRange(l: Ledger, emp: EmpId, ltype: TypeId, start: Date, end: Date, today: Date, v: Violation)
    requires ltype in l.store.types
    ensures Breaks(l, emp, ltype, start, end, today, v) && !RangeGood(start, end) ==> Rank(v) <= 3
    ensures Rank(v) <= 10 && (Rank(v) == 10 <==> v == InsufficientBalance)
    ensures v == InsufficientBalance && !l.store.types[ltype].requiresBalance ==>
              !Breaks(l, emp, ltype, start, end, today, v)
  {
    hide Year, Works, IsFree, Meets, Workdays;
  }

  /** The lists of the checks for a good range, side by side. */
  lemma GoodRangeFindsAll(l: Ledger, emp: EmpId, ltype: TypeId, start: Date, end: Date, today: Date, short: bool)
    requires Inv(l) && ltype in l.store.types && RangeGood(start, end)
    requires short <==> Breaks(l, emp, ltype, start, end, today, InsufficientBalance)
    ensures var t, days := l.store.types[ltype], |Workdays(start, end, l.holidays)|;
            var errors := When(!t.active, LeaveTypeInactive) + RequestErrors(l, emp, t, start, end, today, days)
                          + When(short, InsufficientBalance);
            Ranked(errors, 0, 10) && forall v :: v in errors <==> Breaks(l, emp, ltype, start, end, today, v)
  {
    hide Inv, Workdays, Breaks, RequestErrors, CheckRange, When, Ranked, RangeGood, Rank, LaterRule;
    var t, days := l.store.types[ltype], |Workdays(start, end, l.holidays)|;
    var a, b := When(!t.active, LeaveTypeInactive), RequestErrors(l, emp, t, start, end, today, days);
    FirstErrorsAre(l, emp, ltype, start, end, today);
    RangeErrorIs(l, emp, ltype, start, end, today);
    assert a + [] == a;
    RequestErrorsAre(l, emp, t, start, end, today, days);
    OneOf(short, InsufficientBalance);
    LateRulesNeedRange(l, emp, ltype, start, end, today, InsufficientBalance);
    Joined(a, b, 0, 3, 9);
    Joined(a + b, When(short, InsufficientBalance), 0, 9, 10);
    forall v: Violation
      ensures v in a + b + When(short, InsufficientBalance) <==> Breaks(l, emp, ltype, start, end, today, v)
    {
      LaterRuleIs(l, emp, ltype, start, end, today, v);
      LateRulesNeedRange(l, emp, ltype, start, end, today, v);
    }
  }

  /** The checks find every rule that is broken, in the order of the rules; they count the working days of a good
      range, and put the balance in place that such a request needs. */
  lemma EvaluateFindsAll(l: Ledger, emp: EmpId, ltype: TypeId, start: Date, end: Date, today: Date)
    requires Inv(l) && ltype in l.store.types
    ensures var ev := Evaluate(l, emp, ltype, start, end, today);
            ev.Ok? ==>
              && Ranked(ev.value.errors, 0, 10)
              && (forall v :: v in ev.value.errors <==> Breaks(l, emp, ltype, start, end, today, v))
              && ev.value.days == (if RangeGood(start, end) then |Workdays(start, end, l.holidays)| else 0)
              && if RangeGood(start, end) && l.store.types[ltype].requiresBalance
                 then PutsInPlace(l.store, ev.value.store, Key(emp, ltype, Year(start)))
                 else ev.value.store == l.store
  {
    hide Inv, Workdays, Year, GetBalance, Breaks, RequestErrors, CheckRange, When, Ranked, RangeGood, Rank;
    hide StartsAs;
    var ev, t := Evaluate(l, emp, ltype, start, end, today), l.store.types[ltype];
    LateRulesNeedRange(l, emp, ltype, start, end, today, InsufficientBalance);
    RangeErrorIs(l, emp, ltype, start, end, today);
    if ev.Ok? && RangeGood(start, end) {
      if t.requiresBalance {
        var st := GetBalance(l.store, Key(emp, ltype, Year(start))).value;
        BalanceErrorIs(l, emp, ltype, start, end, today, st);
        GotRowStarts(l, Key(emp, ltype, Year(start)));
      }
      var short := t.requiresBalance && Breaks(l, emp, ltype, start, end, today, InsufficientBalance);
      GoodRangeFindsAll(l, emp, ltype, start, end, today, short);
      NoneWhen(InsufficientBalance);
    } else if ev.Ok? {
      BadRangeFindsAll(l, emp, ltype, start, end, today);
    }
  }

  /** The row there is, or the fresh one, is there, and nothing else changes. */
  ghost predicate PutsInPlace(st: Store, st': Store, k: Key) {
    k in st'.balances && StartsAs(st, k, st'.balances[k])
    && st' == st.(balances := st.balances[k := st'.balances[k]])
  }

  lemma NoneWhen(v: Violation)
    ensures forall s: seq<Violation> :: s + When(false, v) == s
  {}

  lemma BadRangeFindsAll(l: Ledger, emp: EmpId, ltype: TypeId, start: Date, end: Date, today: Date)
    requires ltype in l.store.types && !RangeGood(start, end)
    ensures var errors := When(!l.store.types[ltype].active, LeaveTypeInactive) + Listed(CheckRange(start, end));
            Ranked(errors, 0, 10) && forall v :: v in errors <==> Breaks(l, emp, ltype, start, end, today, v)
  {
    hide Workdays, Breaks, CheckRange, When, RangeGood, Rank;
    FirstErrorsAre(l, emp, ltype, start, end, today);
    forall v: Violation { LateRulesNeedRange(l, emp, ltype, start, end, today, v); }
  }

  lemma MeetsIs(l: Ledger, emp: EmpId, start: Date, end: Date)
    requires Inv(l) && start <= end
    ensures HasOverlap(l.requests, emp, start, end) <==> exists q :: q in l.requests && Meets(q, emp, start, end)
  {
    hide Inv, HasOverlap;
    LedgerTheorems.OverlapQueryExact(l, emp, start, end);
  }

  // ---- what a submission makes ----

  /** The supervisor of an employee on a date, by the row in force; none for nobody and without a row. */
  predicate Supervises(es: map<EmpId, Employee>, who: Option<EmpId>, d: Date, boss: Option<EmpId>) {
    if who.None? || who.value !in es then boss.None?
    else
      var rows := es[who.value].jobs;
      if boss.Some? then exists r :: r in rows && InForce(rows, d, r) && r.supervisor == boss
      else forall r :: r in rows && InForce(rows, d, r) ==> r.supervisor.None?
  }

  /** A level is for the supervisor of the one before, the first for the supervisor of the person asking. */
  predicate GoesUp(es: map<EmpId, Employee>, who: Option<EmpId>, d: Date, chain: seq<Option<EmpId>>, i: nat)
    requires i < |chain|
  {
    Supervises(es, if i == 0 then who else chain[i - 1], d, chain[i])
  }

  predicate StepGoesUp(es: map<EmpId, Employee>, emp: EmpId, d: Date, steps: seq<Step>, i: nat)
    requires i < |steps|
  {
    Supervises(es, if i == 0 then Some(emp) else steps[i - 1].approver, d, steps[i].approver)
  }

  predicate Climbs(es: map<EmpId, Employee>, emp: EmpId, d: Date, steps: seq<Step>) {
    forall i :: 0 <= i < |steps| ==> StepGoesUp(es, emp, d, steps, i)
  }

  lemma SupervisorIs(es: map<EmpId, Employee>, who: Option<EmpId>, d: Date)
    requires who.Some? && who.value in es ==> Increasing(es[who.value].jobs)
    ensures Supervises(es, who, d, SupervisorOf(es, who, d))
  {
    hide InForce, JobAsOf;
    if who.Some? && who.value in es {
      var rows := es[who.value].jobs;
      forall r ensures InForce(rows, d, r) <==> JobAsOf(rows, d) == Some(r) { InForceIs(rows, d, r); }
      InForceIsARow(rows, d);
    }
  }

  lemma {:induction false} ChainClimbs(es: map<EmpId, Employee>, who: Option<EmpId>, levels: nat, d: Date)
    requires forall e :: e in es ==> Increasing(es[e].jobs)
    ensures forall i :: 0 <= i < levels ==> GoesUp(es, who, d, ApproverChain(es, who, levels, d), i)
    decreases levels
  {
    hide Supervises, SupervisorOf;
    if levels > 0 {
      var next, c := SupervisorOf(es, who, d), ApproverChain(es, who, levels, d);
      var rest := ApproverChain(es, next, levels - 1, d);
      SupervisorIs(es, who, d);
      ChainClimbs(es, next, levels - 1, d);
      forall i | 0 <= i < levels ensures GoesUp(es, who, d, c, i) {
        if i > 0 { assert GoesUp(es, next, d, rest, i - 1); }
      }
    }
  }

  /** Nobody else's row changes, and this one by so many days asked for and taken; a missing one is created first. */
  ghost predicate Books(st: Store, st': Store, k: Key, pending: int, used: int) {
    && st' == st.(balances := st'.balances) && st'.balances.Keys == st.balances.Keys + {k}
    && (forall j :: j in st.balances && j != k ==> st'.balances[j] == st.balances[j])
    && var b' := st'.balances[k];
       if k in st.balances then
         b' == st.balances[k].(pending := st.balances[k].pending + pending, used := st.balances[k].used + used)
       else
         k.emp in st.employees
         && exists p :: InEffect(st, k.emp, k.ltype, FirstDay(st.employees[k.emp].hireDate, k.year), p)
                        && IsFresh(b'.(pending := b'.pending - pending, used := b'.used - used), p)
  }

  lemma ReserveBooks(st: Store, k: Key, pending: int, used: int)
    requires GetBalance(st, k).Some? && UniqueRules(st.policies)
    requires k.emp in st.employees ==> Increasing(st.employees[k.emp].jobs)
    ensures k in GetBalance(st, k).value.balances
    ensures Books(st, Reserve(GetBalance(st, k).value, k, pending, used), k, pending, used)
  {
    hide InEffect, EntitlementFor, IsFresh, PolicyAt, FirstDay, Increasing, UniqueRules;
    if k !in st.balances {
      var d := FirstDay(st.employees[k.emp].hireDate, k.year);
      var p := PolicyAt(st, k.emp, k.ltype, d);
      InEffectIs(st, k.emp, k.ltype, d, p);
      CreatedIsFresh(st, k, p);
      var b, b' := WithBalance(st, k).balances[k], Reserve(WithBalance(st, k), k, pending, used).balances[k];
      assert b'.(pending := b'.pending - pending, used := b'.used - used) == b;
    }
  }

  /** The new request is what was asked for, for the working days of its dates, open on every level, and its days
      are booked as asked for; no other request changes. */
  ghost predicate Submitted(l: Ledger, l': Ledger, emp: EmpId, ltype: TypeId, start: Date, end: Date,
                            key: Option<string>, today: Date)
    requires ltype in l.store.types
  {
    var n, t := |l.requests|, l.store.types[ltype];
    && l'.holidays == l.holidays && |l'.requests| == n + 1 && l'.requests[..n] == l.requests
    && var q := l'.requests[n];
    && q.emp == emp && q.ltype == ltype && q.start == start && q.end == end && q.key == key
    && q.days == |Workdays(start, end, l.holidays)|
    && q.status.Pending? && q.level == 1 && q.levels == t.levels == |q.steps|
    && (forall i :: 0 <= i < |q.steps| ==> q.steps[i].status.Open? && q.steps[i].decider.None?)
    && Climbs(l.store.employees, emp, today, q.steps)
    && if t.requiresBalance then Books(l.store, l'.store, Key(emp, ltype, Year(start)), q.days, 0)
       else l'.store == l.store
  }

  lemma NewRequestIs(l: Ledger, emp: EmpId, ltype: TypeId, start: Date, end: Date, days: nat, key: Option<string>,
                     today: Date)
    requires Inv(l) && ltype in l.store.types
    ensures var q := NewRequest(l, emp, ltype, start, end, days, key, today);
            && q == Request(emp, ltype, start, end, days, Pending, l.store.types[ltype].levels, 1, q.steps, key)
            && |q.steps| == q.levels
            && (forall i :: 0 <= i < |q.steps| ==> q.steps[i].status.Open? && q.steps[i].decider.None?)
            && Climbs(l.store.employees, emp, today, q.steps)
  {
    hide Supervises, BalancesAgree, NoOverlap, RequestOk, ApproverChain;
    var es, levels := l.store.employees, l.store.types[ltype].levels;
    var c := ApproverChain(es, Some(emp), levels, today);
    var steps := NewRequest(l, emp, ltype, start, end, days, key, today).steps;
    ChainClimbs(es, Some(emp), levels, today);
    forall i | 0 <= i < levels ensures StepGoesUp(es, emp, today, steps, i) {
      assert GoesUp(es, Some(emp), today, c, i);
    }
  }

  predicate AskedUnder(l: Ledger, emp: EmpId, key: Option<string>, i: nat) {
    i < |l.requests| && l.requests[i].emp == emp && l.requests[i].key == key
  }

  /** The balance a request needs cannot even be created. */
  predicate NoBalance(l: Ledger, emp: EmpId, ltype: TypeId, start: Date, end: Date)
    requires ltype in l.store.types
  {
    && l.store.types[ltype].requiresBalance && RangeGood(start, end)
    && Key(emp, ltype, Year(start)) !in l.store.balances && emp !in l.store.employees
  }

  lemma NoBalanceIs(l: Ledger, emp: EmpId, ltype: TypeId, start: Date, end: Date, today: Date)
    requires ltype in l.store.types
    ensures Evaluate(l, emp, ltype, start, end, today).Err? <==> NoBalance(l, emp, ltype, start, end)
    ensures NoBalance(l, emp, ltype, start, end) ==> Evaluate(l, emp, ltype, start, end, today) == Err(NotFound)
  {
    hide Year, Workdays, RequestErrors, WithBalance;
  }

  /** The first rule reported is the first that is broken. */
  lemma FirstIsLeast(l: Ledger, emp: EmpId, ltype: TypeId, start: Date, end: Date, today: Date)
    requires Inv(l) && ltype in l.store.types && Evaluate(l, emp, ltype, start, end, today).Ok?
    ensures var errors := Evaluate(l, emp, ltype, start, end, today).value.errors;
            && (errors == [] <==> !exists v :: Breaks(l, emp, ltype, start, end, today, v))
            && (errors != [] ==>
                 && Breaks(l, emp, ltype, start, end, today, errors[0])
                 && forall v :: Breaks(l, emp, ltype, start, end, today, v) ==> Rank(errors[0]) <= Rank(v))
  {
    hide Inv, Evaluate, Breaks, Rank;
    EvaluateFindsAll(l, emp, ltype, start, end, today);
    var errors := Evaluate(l, emp, ltype, start, end, today).value.errors;
    if errors != [] { assert errors[0] in errors; }
  }

  /** What is stored when no rule is broken. */
  lemma StoredIsSubmitted(l: Ledger, emp: EmpId, ltype: TypeId, start: Date, end: Date, key: Option<string>,
                          today: Date)
    requires Inv(l) && Evaluate(l, emp, ltype, start, end, today).Ok?
    requires Evaluate(l, emp, ltype, start, end, today).value.errors == []
    ensures ltype in l.store.types
    ensures var ev := Evaluate(l, emp, ltype, start, end, today).value;
            var q := NewRequest(l, emp, ltype, start, end, ev.days, key, today);
            var t := l.store.types[ltype];
            && (t.requiresBalance ==> KeyOf(q) in ev.store.balances)
            && var st := if t.requiresBalance then Reserve(ev.store, KeyOf(q), q.days, 0) else ev.store;
               Submitted(l, l.(store := st, requests := l.requests + [q]), emp, ltype, start, end, key, today)
  {
    hide Inv, Evaluate, NewRequest, Year, Workdays, Books, Climbs, Reserve, GetBalance;
    ValidEvaluation(l, emp, ltype, start, end, today);
    var ev := Evaluate(l, emp, ltype, start, end, today).value;
    NewRequestIs(l, emp, ltype, start, end, ev.days, key, today);
    RowsIncrease(l, emp);
    if l.store.types[ltype].requiresBalance {
      ReserveBooks(l.store, Key(emp, ltype, Year(start)), ev.days, 0);
    }
    var q := NewRequest(l, emp, ltype, start, end, ev.days, key, today);
    assert (l.requests + [q])[..|l.requests|] == l.requests;
  }

  lemma ConflictIs(l: Ledger, emp: EmpId, ltype: TypeId, start: Date, end: Date, key: Option<string>, today: Date)
    requires Inv(l) && ltype in l.store.types && Evaluate(l, emp, ltype, start, end, today).Ok?
    requires Evaluate(l, emp, ltype, start, end, today).value.errors == []
    ensures var q := NewRequest(l, emp, ltype, start, end, Evaluate(l, emp, ltype, start, end, today).value.days, key,
                                today);
            InsertRejected(l.requests, q) <==> key.Some? && exists i: nat :: AskedUnder(l, emp, key, i)
  {
    hide Inv, Evaluate, NewRequest, InsertRejected, LedgerTheorems.Acceptable;
    LedgerTheorems.NoErrorsIff(l, emp, ltype, start, end, today);
    LedgerTheorems.RejectedIff(l, emp, ltype, start, end, Evaluate(l, emp, ltype, start, end, today).value.days, key,
                               today);
    AskedIs(l, emp, key);
  }

  lemma AskedIs(l: Ledger, emp: EmpId, key: Option<string>)
    ensures (exists i: nat :: AskedUnder(l, emp, key, i)) <==> LedgerTheorems.AskedBefore(l, emp, key)
  {
    if i: nat :| AskedUnder(l, emp, key, i) { assert l.requests[i] in l.requests; }
    if LedgerTheorems.AskedBefore(l, emp, key) {
      var q :| q in l.requests && q.emp == emp && q.key == key;
      var i :| 0 <= i < |l.requests| && l.requests[i] == q;
      assert AskedUnder(l, emp, key, i);
    }
  }

  lemma KeyIsNew(l: Ledger, emp: EmpId, key: Option<string>)
    ensures FindKey(l.requests, emp, key).None? <==> !exists i: nat :: AskedUnder(l, emp, key, i)
  {
    if FindKey(l.requests, emp, key).Some? {
      assert AskedUnder(l, emp, key, FindKey(l.requests, emp, key).value);
    }
  }

  /** A new submission of a type there is: no balance, the first rule broken, an empty key used again, or a request. */
  lemma SubmitAnswersNew(l: Ledger, emp: EmpId, hr: bool, ltype: TypeId, start: Date, end: Date, key: Option<string>,
                         today: Date)
    requires Inv(l) && ltype in l.store.types
    requires !(key.Some? && key.value != "" && exists i: nat :: AskedUnder(l, emp, key, i))
    ensures var s := Submit(l, Actor(Some(emp), hr), ltype, start, end, key, today);
            if NoBalance(l, emp, ltype, start, end) then s == Outcome(Err(NotFound), l)
            else if exists v :: Breaks(l, emp, ltype, start, end, today, v) then
              && s.result.Err? && s.result.error.Rule? && s.ledger == l
              && Breaks(l, emp, ltype, start, end, today, s.result.error.violation)
              && forall v :: Breaks(l, emp, ltype, start, end, today, v) ==> Rank(s.result.error.violation) <= Rank(v)
            else if key == Some("") && (exists i: nat :: AskedUnder(l, emp, key, i)) then
              s == Outcome(Err(OverlapConflict), l)
            else s.result == Ok(|l.requests|) && Submitted(l, s.ledger, emp, ltype, start, end, key, today)
  {
    hide Inv, Evaluate, Breaks, Rank, NewRequest, InsertRejected, NoBalance, Submitted, Reserve, FindKey, AskedUnder;
    KeyIsNew(l, emp, key);
    NoBalanceIs(l, emp, ltype, start, end, today);
    var ev := Evaluate(l, emp, ltype, start, end, today);
    if ev.Ok? {
      FirstIsLeast(l, emp, ltype, start, end, today);
      if ev.value.errors == [] {
        ConflictIs(l, emp, ltype, start, end, key, today);
        StoredIsSubmitted(l, emp, ltype, start, end, key, today);
      }
    }
  }

  /** The other submissions: nobody is asking, the key brings its first request back, or there is no such type. */
  lemma SubmitAnswersOld(l: Ledger, actor: Actor, ltype: TypeId, start: Date, end: Date, key: Option<string>,
                         today: Date)
    ensures var s := Submit(l, actor, ltype, start, end, key, today);
            var asked := actor.emp.Some? && key.Some? && key.value != ""
              && exists i: nat :: AskedUnder(l, actor.emp.value, key, i);
            && (actor.emp.None? ==> s == Outcome(Err(NoProfile), l))
            && (asked ==>
                 && s.result.Ok? && s.ledger == l && AskedUnder(l, actor.emp.value, key, s.result.value)
                 && forall i: nat :: i < s.result.value ==> !AskedUnder(l, actor.emp.value, key, i))
            && (actor.emp.Some? && !asked && ltype !in l.store.types ==> s == Outcome(Err(NotFound), l))
  {
    hide Workdays, RequestErrors, NewRequest, InsertRejected;
    if actor.emp.Some? {
      KeyIsNew(l, actor.emp.value, key);
      FindKeyIsFirst(l.requests, actor.emp.value, key);
    }
  }

  lemma {:induction false} FindKeyIsFirst(rs: seq<Request>, emp: EmpId, key: Option<string>)
    ensures var r := FindKey(rs, emp, key);
            r.Some? ==> forall i :: 0 <= i < r.value ==> !(rs[i].emp == emp && rs[i].key == key)
  {
    if rs != [] {
      FindKeyIsFirst(rs[..|rs| - 1], emp, key);
      var r := FindKey(rs[..|rs| - 1], emp, key);
      if r.None? { assert forall i :: 0 <= i < |rs| - 1 ==> rs[i] in rs[..|rs| - 1]; }
    }
  }

  // ---- decisions and cancellations ----

  /** HR, or the one named on the current level. */
  predicate MayDecide(actor: Actor, q: Request) {
    actor.hr
    || (1 <= q.level <= |q.steps| && actor.emp.Some? && q.steps[q.level - 1].approver == actor.emp)
  }

  /** HR, whoever asked, and everybody named on a level. */
  predicate MaySee(actor: Actor, q: Request) {
    actor.hr || actor.emp == Some(q.emp)
    || (actor.emp.Some? && exists i :: 0 <= i < |q.steps| && q.steps[i].approver == actor.emp)
  }

  lemma SeeIs(actor: Actor, q: Request)
    ensures MaySee(actor, q) <==> CanView(actor, q)
  {}

  /** One request changes, and its days with it, on a type that has a balance. */
  ghost predicate Changed(l: Ledger, l': Ledger, id: nat, pending: int, used: int)
    requires id < |l.requests|
  {
    var q := l.requests[id];
    && l'.holidays == l.holidays && |l'.requests| == |l.requests|
    && (forall i :: 0 <= i < |l.requests| && i != id ==> l'.requests[i] == l.requests[i])
    && var q' := l'.requests[id];
    && q' == q.(status := q'.status, level := q'.level, steps := q'.steps) && |q'.steps| == |q.steps|
    && if q.ltype in l.store.types && l.store.types[q.ltype].requiresBalance
       then Books(l.store, l'.store, Key(q.emp, q.ltype, Year(q.start)), pending, used) else l'.store == l.store
  }

  /** The steps that are still open are skipped, and no other changes. */
  predicate SkipsOpen(steps: seq<Step>, steps': seq<Step>) {
    |steps'| == |steps|
    && forall i :: 0 <= i < |steps| ==>
         && steps'[i].approver == steps[i].approver && steps'[i].decider == steps[i].decider
         && steps'[i].status == if steps[i].status.Open? then Skipped else steps[i].status
  }

  /** What a decision makes of the request: the current level carries it, and the rest waits, moves on or is skipped. */
  predicate CarriesDecision(q: Request, q': Request, actor: Actor, approve: bool)
    requires 1 <= q.level <= |q.steps|
  {
    var i := q.level - 1;
    var steps := q.steps[i := Step(q.steps[i].approver, if approve then Granted else Refused, Some(actor))];
    if !approve then q'.status.Rejected? && q'.level == q.level && SkipsOpen(steps, q'.steps)
    else if q.level < q.levels then q'.status == q.status && q'.level == q.level + 1 && q'.steps == steps
    else q'.status.Approved? && q'.level == q.level && q'.steps == steps
  }

  /** A decision counts iff the request is there and pending, and HR or the approver of the level makes it, but not
      the person asking; other answers change nothing. */
  lemma DecideAnswers(l: Ledger, actor: Actor, id: nat, approve: bool)
    requires Inv(l)
    ensures var d := Decide(l, actor, id, approve);
            if id >= |l.requests| || !(MayDecide(actor, l.requests[id]) || MaySee(actor, l.requests[id])) then
              d == Outcome(Err(NotFound), l)
            else if !MayDecide(actor, l.requests[id]) then d == Outcome(Err(NotCurrentApprover), l)
            else if actor.emp == Some(l.requests[id].emp) then d == Outcome(Err(CannotDecideOwn), l)
            else if !l.requests[id].status.Pending? then d == Outcome(Err(NotPending), l)
            else
              var q, l' := l.requests[id], d.ledger;
              var ends := !approve || q.level == q.levels;
              && d.result == Ok(id) && 1 <= q.level <= |q.steps|
              && Changed(l, l', id, if ends then -q.days else 0, if ends && approve then q.days else 0)
              && CarriesDecision(q, l'.requests[id], actor, approve)
  {
    hide Release, Year, CanView, StoreOk, BalancesAgree, NoOverlap, Books;
    if id < |l.requests| {
      var q := l.requests[id];
      SeeIs(actor, q);
      assert q in l.requests && RequestOk(q, l.store.types);
      if q.status.Pending? {
        ReleaseBooks(l, id, -q.days, 0);
        ReleaseBooks(l, id, -q.days, q.days);
        ReleaseBooks(l, id, 0, 0);
      }
    }
  }

  /** Releasing books the days back, on a type that has a balance. */
  lemma ReleaseBooks(l: Ledger, id: nat, pending: int, used: int)
    requires Inv(l) && id < |l.requests| && IsActiveRequest(l.requests[id])
    ensures var q, st := l.requests[id], Release(l.store, l.requests[id], pending, used);
            && st.Some?
            && (if q.ltype in l.store.types && l.store.types[q.ltype].requiresBalance
                then Books(l.store, st.value, Key(q.emp, q.ltype, Year(q.start)), pending, used)
                     && (pending == used == 0 ==> st.value == l.store)
                else st.value == l.store)
  {
    hide Inv, Release, Year, GetBalance;
    ReleaseWorks(l, id, pending, used);
    if HasBalance(l.store, l.requests[id].ltype) {
      RowsIncrease(l, l.requests[id].emp);
      MovedRow(l.store, KeyOf(l.requests[id]), pending, used);
    }
  }

  lemma MovedRow(st: Store, k: Key, pending: int, used: int)
    requires k in st.balances
    ensures Books(st, Reserve(st, k, pending, used), k, pending, used)
    ensures Reserve(st, k, 0, 0) == st
  {
    assert Reserve(st, k, 0, 0).balances == st.balances;
  }

  /** A cancellation counts iff HR or the person who asked makes it, of a pending request or an approved one that has
      not begun; its days come back and what is open is skipped. */
  lemma CancelAnswers(l: Ledger, actor: Actor, id: nat, today: Date)
    requires Inv(l)
    ensures var c := Cancel(l, actor, id, today);
            if id >= |l.requests| || !MaySee(actor, l.requests[id]) then c == Outcome(Err(NotFound), l)
            else
              var q := l.requests[id];
              if !actor.hr && actor.emp != Some(q.emp) then c == Outcome(Err(CannotCancelOthers), l)
              else if !q.status.Pending? && (!q.status.Approved? || q.start <= today)
              then c == Outcome(Err(CannotCancel), l)
              else
                && c.result == Ok(id)
                && Changed(l, c.ledger, id, if q.status.Pending? then -q.days else 0,
                           if q.status.Pending? then 0 else -q.days)
                && var q' := c.ledger.requests[id];
                   q'.status.Cancelled? && q'.level == q.level && SkipsOpen(q.steps, q'.steps)
  {
    hide Release, Year, CanView, StoreOk, BalancesAgree, NoOverlap, Books, RequestOk;
    if id < |l.requests| {
      var q := l.requests[id];
      SeeIs(actor, q);
      if IsActiveRequest(q) {
        ReleaseBooks(l, id, -q.days, 0);
        ReleaseBooks(l, id, 0, -q.days);
      }
    }
  }

  // ---- corrections and page views ----

  /** The row there is, or the fresh one it begins with. */
  ghost predicate StartsAs(st: Store, k: Key, b: Balance) {
    if k in st.balances then b == st.balances[k]
    else
      k.emp in st.employees
      && exists p :: InEffect(st, k.emp, k.ltype, FirstDay(st.employees[k.emp].hireDate, k.year), p) && IsFresh(b, p)
  }

  /** One row is put in place with this value, and nothing else changes. */
  predicate PutsRow(l: Ledger, l': Ledger, k: Key, b: Balance) {
    l' == l.(store := l.store.(balances := l.store.balances[k := b]))
  }

  lemma GotRowStarts(l: Ledger, k: Key)
    requires Inv(l)
    ensures GetBalance(l.store, k).Some? <==> k in l.store.balances || k.emp in l.store.employees
    ensures GetBalance(l.store, k).Some? ==>
              var st := GetBalance(l.store, k).value;
              && k in st.balances && StartsAs(l.store, k, st.balances[k])
              && st == l.store.(balances := l.store.balances[k := st.balances[k]])
  {
    hide Inv, InEffect, EntitlementFor, PolicyAt, IsFresh, FirstDay, Increasing, UniqueRules;
    RowsIncrease(l, k.emp);
    if k in l.store.balances {
      assert l.store.balances[k := l.store.balances[k]] == l.store.balances;
    } else if k.emp in l.store.employees {
      var d := FirstDay(l.store.employees[k.emp].hireDate, k.year);
      InEffectIs(l.store, k.emp, k.ltype, d, PolicyAt(l.store, k.emp, k.ltype, d));
      CreatedIsFresh(l.store, k, PolicyAt(l.store, k.emp, k.ltype, d));
    }
  }

  /** A correction counts iff the type has balances, there is a row or an employee to have one, and at least nothing
      is left after it; then it is all that changes on the row. */
  lemma AdjustAnswers(l: Ledger, k: Key, delta: int)
    requires Inv(l)
    ensures var a := Adjust(l, k, delta);
            if k.ltype !in l.store.types then a == Outcome(Err(NotFound), l)
            else if !l.store.types[k.ltype].requiresBalance then a == Outcome(Err(WithoutBalance), l)
            else if k !in l.store.balances && k.emp !in l.store.employees then a == Outcome(Err(NotFound), l)
            else
              exists b: Balance ::
                && StartsAs(l.store, k, b)
                && if DaysLeft(b) + delta < 0 then a == Outcome(Err(BalanceNegative), l)
                   else a.result.Ok? && PutsRow(l, a.ledger, k, b.(adjusted := b.adjusted + delta))
  {
    hide Inv, GetBalance, StartsAs;
    GotRowStarts(l, k);
    if GetBalance(l.store, k).Some? {
      var st := GetBalance(l.store, k).value;
      var b := st.balances[k];
      assert l.store.balances[k := b][k := b.(adjusted := b.adjusted + delta)] ==
             l.store.balances[k := b.(adjusted := b.adjusted + delta)];
      assert StartsAs(l.store, k, b);
    }
  }

  /** A page view puts the row in place, if the type has balances and there is a row or an employee to have one. */
  lemma ViewAnswers(l: Ledger, k: Key)
    requires Inv(l)
    ensures var v := View(l, k);
            if k.ltype in l.store.types && l.store.types[k.ltype].requiresBalance
               && (k in l.store.balances || k.emp in l.store.employees)
            then v.result.Ok? && exists b: Balance :: StartsAs(l.store, k, b) && PutsRow(l, v.ledger, k, b)
            else v == Outcome(Err(NotFound), l)
  {
    hide Inv, GetBalance, StartsAs;
    GotRowStarts(l, k);
    if GetBalance(l.store, k).Some? {
      assert StartsAs(l.store, k, GetBalance(l.store, k).value.balances[k]);
    }
  }
}
