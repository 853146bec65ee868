/** The main results about the leave ledger, for every reachable ledger. */
module LedgerTheorems {
  import opened Common
  import opened Calendar
  import opened LeaveRules
  import opened JobHistory
  import opened LeaveAccrual
  import opened LeaveLedger
  import opened LedgerInvariants

  // ---- the real bound on usage ----

  predicate TakesDays(q: Request, emp: EmpId, y: int) { IsActiveRequest(q) && q.emp == emp && Year(q.start) == y }

  /** Pending and approved days of an employee in a year, over all leave types. */
  function DaysTaken(rs: seq<Request>, emp: EmpId, y: int): int {
    if rs == [] then 0 else
      DaysTaken(rs[..|rs| - 1], emp, y) + (if TakesDays(rs[|rs| - 1], emp, y) then rs[|rs| - 1].days else 0)
  }

  /** The weekdays covered by those requests. */
  function Covered(rs: seq<Request>, emp: EmpId, y: int): set<Date> {
    if rs == [] then {} else
      var q := rs[|rs| - 1];
      Covered(rs[..|rs| - 1], emp, y) + (if TakesDays(q, emp, y) then Weekdays(q.start, q.end) else {})
  }

  lemma {:induction false} CoveredBySome(rs: seq<Request>, emp: EmpId, y: int, d: Date)
    requires d in Covered(rs, emp, y)
    ensures exists i :: 0 <= i < |rs| && TakesDays(rs[i], emp, y) && rs[i].start <= d <= rs[i].end
  {
    if d in Covered(rs[..|rs| - 1], emp, y) {
      CoveredBySome(rs[..|rs| - 1], emp, y, d);
      var i :| 0 <= i < |rs| - 1 && TakesDays(rs[i], emp, y) && rs[i].start <= d <= rs[i].end;
    }
  }

  lemma {:induction false} DaysFitCovered(rs: seq<Request>, emp: EmpId, y: int)
    requires NoOverlap(rs)
    requires forall q :: q in rs ==> q.days <= |Weekdays(q.start, q.end)|
    ensures DaysTaken(rs, emp, y) <= |Covered(rs, emp, y)|
  {
    if rs != [] {
      var n := |rs| - 1;
      DaysFitCovered(rs[..n], emp, y);
      if TakesDays(rs[n], emp, y) {
        var a, b := Covered(rs[..n], emp, y), Weekdays(rs[n].start, rs[n].end);
        forall d | d in a ensures d !in b {
          CoveredBySome(rs[..n], emp, y, d);
          var i :| 0 <= i < n && TakesDays(rs[i], emp, y) && rs[i].start <= d <= rs[i].end;
          assert Disjoint(rs[i], rs[n]);
        }
        assert a !! b;
        assert |a + b| == |a| + |b|;
      }
    }
  }

  lemma {:induction false} CoveredInYear(rs: seq<Request>, emp: EmpId, y: int)
    requires forall q :: q in rs ==> Year(q.start) == Year(q.end)
    ensures Covered(rs, emp, y) <= Weekdays(JanFirst(y), DecLast(y))
  {
    if rs != [] {
      var q := rs[|rs| - 1];
      CoveredInYear(rs[..|rs| - 1], emp, y);
      InYear(q.start, y);
      InYear(q.end, y);
    }
  }

  /** However the holiday calendar changed in between, the pending and approved days of an employee in a
      year, over all types, fit the weekdays of the year, hence 262 days. */
  lemma UsageFitsTheYear(l: Ledger, emp: EmpId, y: int)
    requires Inv(l)
    ensures DaysTaken(l.requests, emp, y) <= |Weekdays(JanFirst(y), DecLast(y))| <= 262
  {
    hide Year, Weekdays, StoreOk, LadderOk, BalancesAgree;
    DaysFitCovered(l.requests, emp, y);
    CoveredInYear(l.requests, emp, y);
    SubsetCard(Covered(l.requests, emp, y), Weekdays(JanFirst(y), DecLast(y)));
    YearHasAtMost262Weekdays(y);
  }

  lemma {:induction false} TypeWithinAll(rs: seq<Request>, k: Key)
    requires forall q :: q in rs ==> q.days > 0
    ensures SumDays(rs, k, Pending) + SumDays(rs, k, Approved) <= DaysTaken(rs, k.emp, k.year)
  {
    if rs != [] { TypeWithinAll(rs[..|rs| - 1], k); }
  }

  /** A stored balance never shows more than a year's weekdays used and pending. */
  lemma BalanceFitsTheYear(l: Ledger, k: Key)
    requires Inv(l) && k in l.store.balances
    ensures 0 <= l.store.balances[k].used && 0 <= l.store.balances[k].pending
    ensures l.store.balances[k].used + l.store.balances[k].pending <= 262
  {
    hide Year, Weekdays, StoreOk, LadderOk;
    assert Agrees(l.store, l.requests, k);
    TypeWithinAll(l.requests, k);
    UsageFitsTheYear(l, k.emp, k.year);
    BookedNonNegative(l, k);
  }

  // ---- the overlap test and the database constraint ----

  /** In a reachable ledger the fast overlap query answers plain intersection with an active request. */
  lemma OverlapQueryExact(l: Ledger, emp: EmpId, start: Date, end: Date)
    requires Inv(l) && start <= end
    ensures HasOverlap(l.requests, emp, start, end) <==>
            exists q :: q in l.requests && q.emp == emp && IsActiveRequest(q) && Intersects(q.start, q.end, start, end)
  {
    hide Year, Weekdays, StoreOk, LadderOk, BalancesAgree;
    forall q | q in l.requests
      ensures Overlaps(q.start, q.end, start, end) <==> Intersects(q.start, q.end, start, end)
    {
      assert RequestOk(q, l.store.types);
      OverlapTestExact(q.start, q.end);
    }
  }

  /** One at a time, submissions never meet the exclusion constraint: the insert fails only for a reused empty key. */
  lemma ConstraintNeverFires(l: Ledger, actor: Actor, ltype: TypeId, start: Date, end: Date, key: Option<string>,
                             today: Date)
    requires Inv(l)
    ensures Submit(l, actor, ltype, start, end, key, today).result == Err(OverlapConflict) ==>
            key == Some("") && exists q :: q in l.requests && Some(q.emp) == actor.emp && q.key == Some("")
  {
    hide Year, Weekdays, Workdays, StoreOk, LadderOk, BalancesAgree, NewRequest, CheckRange, Evaluate;
    if Submit(l, actor, ltype, start, end, key, today).result == Err(OverlapConflict) {
      var emp := actor.emp.value;
      OnlyNotFound(l, emp, ltype, start, end, today);
      ValidEvaluation(l, emp, ltype, start, end, today);
      var days := Evaluate(l, emp, ltype, start, end, today).value.days;
      NewRequestFields(l, emp, ltype, start, end, days, key, today);
      NewRequestKey(l, emp, ltype, start, end, days, key, today);
      OverlapQueryExact(l, emp, start, end) by { RangeOrdered(start, end); }
    }
  }

  predicate AskedBefore(l: Ledger, emp: EmpId, key: Option<string>) {
    exists q :: q in l.requests && q.emp == emp && q.key == key
  }

  /** What the row has available, or would have when it is created. */
  function AvailableAt(st: Store, k: Key): int
    requires k.emp in st.employees
  {
    if k in st.balances then st.balances[k].Available() else EntitlementFor(st, k)
  }

  predicate NoticeOk(t: LeaveType, start: Date, today: Date) {
    if start < today then t.allowBackdated else start - today >= t.minNotice
  }

  /** What a request has to satisfy, in plain terms. */
  predicate Acceptable(l: Ledger, emp: EmpId, ltype: TypeId, start: Date, end: Date, today: Date) {
    && ltype in l.store.types && emp in l.store.employees
    && var t, days := l.store.types[ltype], |Workdays(start, end, l.holidays)|;
    && t.active
    && start <= end && Year(start) == Year(end) && end - start < MAX_REQUEST_SPAN_DAYS
    && days > 0 && (t.maxDays.Some? ==> days <= t.maxDays.value)
    && IsActiveAt(l.store.employees[emp], start) && NoticeOk(t, start, today)
    && (forall q :: q in l.requests && q.emp == emp && IsActiveRequest(q) ==> !Intersects(q.start, q.end, start, end))
    && (t.requiresBalance ==> days <= AvailableAt(l.store, Key(emp, ltype, Year(start))))
  }

  lemma NoErrorsIff(l: Ledger, emp: EmpId, ltype: TypeId, start: Date, end: Date, today: Date)
    requires Inv(l)
    ensures var ev := Evaluate(l, emp, ltype, start, end, today);
            ev.Ok? && ev.value.errors == [] <==> Acceptable(l, emp, ltype, start, end, today)
  {
    hide Inv, HasOverlap, IsActiveAt, Workdays, EntitlementFor, Year, Intersects;
    if start <= end { OverlapQueryExact(l, emp, start, end); }
    if ltype in l.store.types && CheckRange(start, end).None? {
      RequestErrorsIff(l, emp, l.store.types[ltype], start, end, today, |Workdays(start, end, l.holidays)|);
      hide RequestErrors;
    }
  }

  lemma RequestErrorsIff(l: Ledger, emp: EmpId, t: LeaveType, start: Date, end: Date, today: Date, days: nat)
    ensures RequestErrors(l, emp, t, start, end, today, days) == [] <==>
            && days > 0 && emp in l.store.employees && IsActiveAt(l.store.employees[emp], start)
            && NoticeOk(t, start, today)
            && (t.maxDays.Some? ==> days <= t.maxDays.value) && !HasOverlap(l.requests, emp, start, end)
  {
    hide HasOverlap, IsActiveAt;
  }

  /** A new request is accepted iff it satisfies every rule; a key used before, other than the empty one,
      brings its request back instead. */
  lemma SubmitAcceptsExactly(l: Ledger, actor: Actor, ltype: TypeId, start: Date, end: Date, key: Option<string>,
                             today: Date)
    requires Inv(l)
    ensures Submit(l, actor, ltype, start, end, key, today).result.Ok? <==>
            actor.emp.Some? && var emp := actor.emp.value;
            (key.Some? && key != Some("") && AskedBefore(l, emp, key))
            || (Acceptable(l, emp, ltype, start, end, today) && !(key == Some("") && AskedBefore(l, emp, key)))
  {
    hide Inv, Acceptable, Evaluate, NewRequest, Year, Reserve, InsertRejected;
    if actor.emp.Some? {
      var emp := actor.emp.value;
      NoErrorsIff(l, emp, ltype, start, end, today);
      if Acceptable(l, emp, ltype, start, end, today) {
        var days := Evaluate(l, emp, ltype, start, end, today).value.days;
        ValidEvaluation(l, emp, ltype, start, end, today);
        RejectedIff(l, emp, ltype, start, end, days, key, today);
      }
    }
  }

  lemma RejectedIff(l: Ledger, emp: EmpId, ltype: TypeId, start: Date, end: Date, days: nat, key: Option<string>,
                    today: Date)
    requires Acceptable(l, emp, ltype, start, end, today)
    ensures InsertRejected(l.requests, NewRequest(l, emp, ltype, start, end, days, key, today)) <==>
            key.Some? && AskedBefore(l, emp, key)
  {
    hide NewRequest, Year, Workdays, IsActiveAt, EntitlementFor;
    NewRequestFields(l, emp, ltype, start, end, days, key, today);
    NewRequestKey(l, emp, ltype, start, end, days, key, today);
  }

  lemma OnlyNotFound(l: Ledger, emp: EmpId, ltype: TypeId, start: Date, end: Date, today: Date)
    ensures Evaluate(l, emp, ltype, start, end, today).Err? ==>
            Evaluate(l, emp, ltype, start, end, today).error == NotFound
  {}

  lemma RangeOrdered(start: Date, end: Date)
    requires CheckRange(start, end).None?
    ensures start <= end
  {}

  lemma NewRequestKey(l: Ledger, emp: EmpId, ltype: TypeId, start: Date, end: Date, days: nat, key: Option<string>,
                      today: Date)
    requires ltype in l.store.types
    ensures NewRequest(l, emp, ltype, start, end, days, key, today).key == key
  {}

  // ---- what is available ----

  ghost predicate AllAvailable(l: Ledger) {
    forall k :: k in l.store.balances ==> l.store.balances[k].Available() >= 0
  }

  /** Every balance whose carry-over this expiry run closes has a non-negative grant of its own. */
  ghost predicate ExpirySafe(l: Ledger, e: Event) {
    e.RunningJob? && e.job.ExpiryJob? ==>
      forall k :: k in ChunkKeys(ExpiryJob, l.store, e.asOf, e.lo, e.hi) ==>
        l.store.balances[k].entitled + l.store.balances[k].adjusted >= 0
  }

  lemma GetBalanceAvailable(st: Store, k: Key)
    requires GetBalance(st, k).Some?
    requires forall j :: j in st.balances ==> st.balances[j].Available() >= 0
    ensures var st' := GetBalance(st, k).value;
            k in st'.balances && forall j :: j in st'.balances ==> st'.balances[j].Available() >= 0
  {
    hide EntitlementFor;
  }

  lemma SubmitAvailable(l: Ledger, e: Event)
    requires Inv(l) && AllAvailable(l) && e.Submitting?
    ensures AllAvailable(Next(l, e))
  {
    hide Inv, Year, Evaluate, NewRequest, FindKey, InsertRejected;
    var l' := Next(l, e);
    if l' != l {
      var emp := e.actor.emp.value;
      ValidEvaluation(l, emp, e.ltype, e.start, e.end, e.today);
      var ev := Evaluate(l, emp, e.ltype, e.start, e.end, e.today).value;
      NewRequestFields(l, emp, e.ltype, e.start, e.end, ev.days, e.key, e.today);
      if HasBalance(l.store, e.ltype) {
        GetBalanceAvailable(l.store, Key(emp, e.ltype, Year(e.start)));
      }
    }
  }

  lemma DecideAvailable(l: Ledger, e: Event)
    requires Inv(l) && AllAvailable(l) && (e.Deciding? || e.Cancelling?)
    ensures AllAvailable(Next(l, e))
  {
    hide Year, Release, Weekdays, StoreOk, BalancesAgree, NoOverlap, LadderOk;
    var l' := Next(l, e);
    if l' != l {
      var q := l.requests[e.id];
      assert q in l.requests && RequestOk(q, l.store.types);
      if e.Deciding? {
        var q' := Decided(q, e.actor, e.approve);
        ReleaseWorks(l, e.id, -q.days, if q'.status.Approved? then q.days else 0);
      } else {
        ReleaseWorks(l, e.id, if q.status.Pending? then -q.days else 0, if q.status.Pending? then 0 else -q.days);
      }
    }
  }

  lemma JobAvailable(l: Ledger, e: Event)
    requires Inv(l) && AllAvailable(l) && e.RunningJob?
    ensures AllAvailable(Next(l, e)) <==> ExpirySafe(l, e)
  {
    hide ChunkKeys, CountsFor, Effect, HistoryOk, BalancesAgree, NoOverlap, RequestOk;
    var keys := ChunkKeys(e.job, l.store, e.asOf, e.lo, e.hi);
    var st' := Next(l, e).store;
    forall k | k in keys
      ensures Effect(e.job, l.store, e.asOf, k).Available() >= 0 <==>
              (e.job.AccrualJob? || l.store.balances[k].entitled + l.store.balances[k].adjusted >= 0)
    {
      RowAvailable(e.job, l.store, e.asOf, e.lo, e.hi, k);
    }
    forall k | k in keys ensures k in st'.balances && st'.balances[k] == Effect(e.job, l.store, e.asOf, k) {}
    forall k | k in st'.balances && k !in keys ensures st'.balances[k].Available() >= 0 {}
  }

  lemma RowAvailable(job: JobCode, st: Store, asOf: Date, lo: EmpId, hi: EmpId, k: Key)
    requires k in ChunkKeys(job, st, asOf, lo, hi)
    requires k in st.balances ==> st.balances[k].Available() >= 0 && BalanceOk(st.balances[k], k)
    ensures Effect(job, st, asOf, k).Available() >= 0 <==>
            (job.AccrualJob? || st.balances[k].entitled + st.balances[k].adjusted >= 0)
  {
    hide PolicyAt, BasePolicy, IsActiveAt, Year, CarryOverExpiry;
  }

  /** No event takes what is available on a balance below zero, except an expiry, which does exactly when
      a row it closes has entitlement plus corrections below zero. */
  lemma AvailabilityKept(l: Ledger, e: Event)
    requires Inv(l) && AllAvailable(l)
    ensures AllAvailable(Next(l, e)) <==> ExpirySafe(l, e)
  {
    hide Inv, Submit, Decide, Cancel, RunChunk, NewJob;
    match e {
      case Submitting(_, _, _, _, _, _) => SubmitAvailable(l, e);
      case Deciding(_, _, _) => DecideAvailable(l, e);
      case Cancelling(_, _, _) => DecideAvailable(l, e);
      case Adjusting(k, _) => if GetBalance(l.store, k).Some? { GetBalanceAvailable(l.store, k); }
      case Viewing(k) => if GetBalance(l.store, k).Some? { GetBalanceAvailable(l.store, k); }
      case RunningJob(_, _, _, _) => JobAvailable(l, e);
      case _ =>
    }
  }

  ghost predicate AlwaysExpirySafe(es: seq<Event>) {
    forall n :: 0 <= n < |es| ==> ExpirySafe(After(EMPTY, es[..n]), es[n])
  }

  /** Over a whole run: nothing available drops below zero as long as every expiry is safe when it happens. */
  lemma {:induction false} AvailableOverRuns(es: seq<Event>)
    requires AlwaysExpirySafe(es)
    ensures AllAvailable(After(EMPTY, es))
  {
    hide ExpirySafe, Next;
    if es != [] {
      var n := |es| - 1;
      assert AlwaysExpirySafe(es[..n]) by {
        forall m | 0 <= m < n ensures ExpirySafe(After(EMPTY, es[..n][..m]), es[..n][m]) {
          assert es[..n][..m] == es[..m];
        }
      }
      AvailableOverRuns(es[..n]);
      AlwaysInv(es[..n]);
      AvailabilityKept(After(EMPTY, es[..n]), es[n]);
    }
  }

  // ---- the life cycle of a carry-over ----

  /** Once applied a carry-over and its due date stay; once closed, so does what expired. */
  predicate CarryKept(b: Balance, b': Balance) {
    && (b.applied ==> b'.applied && b'.carried == b.carried && b'.expiresOn == b.expiresOn)
    && (b.closed ==> b'.closed && b'.expired == b.expired)
    && b'.entitled >= b.entitled
  }

  lemma CarryOverOnce(l: Ledger, e: Event, k: Key)
    requires Inv(l) && k in l.store.balances
    ensures k in Next(l, e).store.balances && CarryKept(l.store.balances[k], Next(l, e).store.balances[k])
    ensures !e.RunningJob? ==> var b, b' := l.store.balances[k], Next(l, e).store.balances[k];
              b'.carried == b.carried && b'.expired == b.expired && b'.entitled == b.entitled
  {
    hide Inv, Submit, CarryKept, RunChunk;
    SameIsKept(l.store.balances[k]);
    match e {
      case Submitting(_, _, _, _, _, _) => SubmitKeepsCarry(l, e, k);
      case RunningJob(job, asOf, lo, hi) => JobKeepsCarry(l.store, job, asOf, lo, hi, k);
      case _ => OthersKeepCarry(l, e, k);
    }
  }

  lemma SameIsKept(b: Balance)
    ensures CarryKept(b, b)
  {}

  lemma SubmitKeepsCarry(l: Ledger, e: Event, k: Key)
    requires Inv(l) && k in l.store.balances && e.Submitting?
    ensures k in Next(l, e).store.balances
    ensures var b, b' := l.store.balances[k], Next(l, e).store.balances[k];
            b' == b.(pending := b'.pending) && CarryKept(b, b')
  {
    hide Inv, Evaluate, Year, NewRequest, FindKey, InsertRejected;
    if Next(l, e) != l { ValidEvaluation(l, e.actor.emp.value, e.ltype, e.start, e.end, e.today); }
  }

  lemma OthersKeepCarry(l: Ledger, e: Event, k: Key)
    requires k in l.store.balances && !e.Submitting? && !e.RunningJob?
    ensures k in Next(l, e).store.balances && CarryKept(l.store.balances[k], Next(l, e).store.balances[k])
    ensures var b, b' := l.store.balances[k], Next(l, e).store.balances[k];
            b' == b.(pending := b'.pending, used := b'.used, adjusted := b'.adjusted)
  {
    hide Decide, NewJob, Year, CarryKept, EntitlementFor, Submit, SkipOpen, CanView, UniqueRules, FirstJob;
    if e.Deciding? { DecideKeepsCarry(l, e, k); }
    OnlyUsageIsKept(l.store.balances[k], Next(l, e).store.balances[k]);
  }

  lemma OnlyUsageIsKept(b: Balance, b': Balance)
    ensures b' == b.(pending := b'.pending, used := b'.used, adjusted := b'.adjusted) ==> CarryKept(b, b')
  {}

  lemma DecideKeepsCarry(l: Ledger, e: Event, k: Key)
    requires k in l.store.balances && e.Deciding?
    ensures k in Next(l, e).store.balances
    ensures var b, b' := l.store.balances[k], Next(l, e).store.balances[k];
            b' == b.(pending := b'.pending, used := b'.used)
  {
    hide Release, SkipOpen, CanView;
    if e.id < |l.requests| {
      var q := l.requests[e.id];
      if Release(l.store, q, -q.days, 0).Some? { ReleaseMovesUsage(l.store, q, -q.days, 0, k); }
      if Release(l.store, q, -q.days, q.days).Some? { ReleaseMovesUsage(l.store, q, -q.days, q.days, k); }
    }
  }

  lemma ReleaseMovesUsage(st: Store, q: Request, pending: int, used: int, k: Key)
    requires k in st.balances && Release(st, q, pending, used).Some?
    ensures var st' := Release(st, q, pending, used).value;
            k in st'.balances
            && st'.balances[k] == st.balances[k].(pending := st'.balances[k].pending, used := st'.balances[k].used)
  {
    hide Year, EntitlementFor;
  }

  lemma JobKeepsCarry(st: Store, job: JobCode, asOf: Date, lo: EmpId, hi: EmpId, k: Key)
    requires k in st.balances
    ensures var st' := RunChunk(job, st, asOf, lo, hi).0;
            k in st'.balances && CarryKept(st.balances[k], st'.balances[k])
  {
    hide CountsFor, PolicyAt, BasePolicy, IsActiveAt, Year, CarryOverExpiry, AccrualEmployees;
    var keys := ChunkKeys(job, st, asOf, lo, hi);
    if k in keys {
      assert RunChunk(job, st, asOf, lo, hi).0.balances[k] == Effect(job, st, asOf, k);
    } else {
      assert RunChunk(job, st, asOf, lo, hi).0.balances[k] == st.balances[k];
    }
  }

  // ---- the life of a request ----

  /** What an event may do to a request: nothing once it is rejected or cancelled, only cancel it once it is
      approved, and never touch who asked for what, the number of levels or a decision already made. */
  ghost predicate RequestKept(q: Request, q': Request) {
    && q' == q.(status := q'.status, level := q'.level, steps := q'.steps)
    && |q'.steps| == |q.steps| && q'.level >= q.level
    && (q.status.Rejected? || q.status.Cancelled? ==> q' == q)
    && (q.status.Approved? ==> q' == q || q'.status.Cancelled?)
    && (forall i :: 0 <= i < |q.steps| ==>
          q'.steps[i].approver == q.steps[i].approver && (!q.steps[i].status.Open? ==> q'.steps[i] == q.steps[i]))
  }

  lemma RequestsAreKept(l: Ledger, e: Event, i: nat)
    requires Inv(l) && i < |l.requests|
    ensures i < |Next(l, e).requests| && RequestKept(l.requests[i], Next(l, e).requests[i])
  {
    hide Evaluate, NewJob, Year, RunChunk, NewRequest, FindKey, InsertRejected, Release, StoreOk, BalancesAgree;
    hide NoOverlap, Weekdays;
    assert RequestOk(l.requests[i], l.store.types);
  }

  /** Cancelling a request just submitted gives back everything it took. */
  lemma SubmitThenCancel(l: Ledger, actor: Actor, ltype: TypeId, start: Date, end: Date, key: Option<string>,
                         today: Date)
    requires Inv(l)
    requires var s := Submit(l, actor, ltype, start, end, key, today); s.result == Ok(|l.requests|) && s.ledger != l
    ensures var s := Submit(l, actor, ltype, start, end, key, today).ledger;
            var c := Cancel(s, actor, |l.requests|, today);
            c.result.Ok? && c.ledger.requests[..|l.requests|] == l.requests
            && c.ledger.requests[|l.requests|].status.Cancelled?
            && c.ledger.store == if HasBalance(l.store, ltype)
                                 then GetBalance(l.store, Key(actor.emp.value, ltype, Year(start))).value else l.store
  {
    hide Inv, Evaluate, NewRequest, Year, FindKey, InsertRejected, WithBalance;
    ValidEvaluation(l, actor.emp.value, ltype, start, end, today);
    var s := Submit(l, actor, ltype, start, end, key, today).ledger;
    var ev := Evaluate(l, actor.emp.value, ltype, start, end, today).value;
    NewRequestFields(l, actor.emp.value, ltype, start, end, ev.days, key, today);
    var q := s.requests[|l.requests|];
    if HasBalance(l.store, ltype) {
      var k := KeyOf(q);
      SameTypes(l.store, k);
      assert Reserve(s.store, k, -q.days, 0).balances == ev.store.balances;
    }
  }

  lemma SameTypes(st: Store, k: Key)
    requires GetBalance(st, k).Some?
    ensures GetBalance(st, k).value.types == st.types && k in GetBalance(st, k).value.balances
  {}
}
