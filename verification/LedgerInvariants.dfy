/** What every sequence of events keeps true of a ledger. */
module LedgerInvariants {
  import opened Common
  import opened Calendar
  import opened LeaveRules
  import opened JobHistory
  import opened LeaveAccrual
  import opened LeaveLedger

  // ---- requests ----

  /** Who decided a step: HR or its approver, and never the person asking. */
  predicate DecidedProperly(q: Request) {
    forall i :: 0 <= i < |q.steps| && (q.steps[i].status.Granted? || q.steps[i].status.Refused?) ==>
      var s := q.steps[i];
      s.decider.Some? && s.decider.value.emp != Some(q.emp) &&
      (s.decider.value.hr || (s.approver.Some? && s.decider.value.emp == s.approver))
  }

  /** The approval ladder. Pending: levels below the current one granted, the rest open. Approved: all granted.
      Rejected: granted, one refused, the rest skipped. Cancelled: granted, then skipped. */
  predicate LadderOk(q: Request) {
    && |q.steps| == q.levels && 1 <= q.level <= q.levels
    && DecidedProperly(q)
    && match q.status
       case Pending =>
         forall i :: 0 <= i < q.levels ==> q.steps[i].status == (if i < q.level - 1 then Granted else Open)
       case Approved => q.level == q.levels && forall i :: 0 <= i < q.levels ==> q.steps[i].status.Granted?
       case Rejected =>
         forall i :: 0 <= i < q.levels ==>
           q.steps[i].status == (if i < q.level - 1 then Granted else if i == q.level - 1 then Refused else Skipped)
       case Cancelled =>
         || (forall i :: 0 <= i < q.levels ==> q.steps[i].status == (if i < q.level - 1 then Granted else Skipped))
         || (q.level == q.levels && forall i :: 0 <= i < q.levels ==> q.steps[i].status.Granted?)
  }

  predicate RequestOk(q: Request, types: map<TypeId, LeaveType>) {
    && q.ltype in types
    && q.start <= q.end && q.end - q.start < MAX_REQUEST_SPAN_DAYS
    && Year(q.start) == Year(q.end)
    && 0 < q.days <= |Weekdays(q.start, q.end)|
    && LadderOk(q)
  }

  predicate Disjoint(q: Request, r: Request) {
    q.emp == r.emp && IsActiveRequest(q) && IsActiveRequest(r) ==> !Intersects(q.start, q.end, r.start, r.end)
  }

  predicate NoOverlap(rs: seq<Request>) {
    forall i, j :: 0 <= i < j < |rs| ==> Disjoint(rs[i], rs[j])
  }

  // ---- what the requests book ----

  function Weight(q: Request, k: Key, status: RequestStatus): int {
    if q.status == status && KeyOf(q) == k then q.days else 0
  }

  /** The days of the requests of one employee, type and year in one status. */
  function SumDays(rs: seq<Request>, k: Key, status: RequestStatus): int {
    if rs == [] then 0 else SumDays(rs[..|rs| - 1], k, status) + Weight(rs[|rs| - 1], k, status)
  }

  lemma SumAppend(rs: seq<Request>, q: Request, k: Key, status: RequestStatus)
    ensures SumDays(rs + [q], k, status) == SumDays(rs, k, status) + Weight(q, k, status)
  {
    assert (rs + [q])[..|rs|] == rs;
  }

  lemma {:induction false} SumUpdate(rs: seq<Request>, i: nat, q: Request, k: Key, status: RequestStatus)
    requires i < |rs|
    ensures SumDays(rs[i := q], k, status) ==
            SumDays(rs, k, status) - Weight(rs[i], k, status) + Weight(q, k, status)
  {
    var n := |rs| - 1;
    if i == n {
      assert rs[i := q][..n] == rs[..n];
    } else {
      assert rs[i := q][..n] == rs[..n][i := q];
      SumUpdate(rs[..n], i, q, k, status);
    }
  }

  lemma {:induction false} SumAtLeast(rs: seq<Request>, i: nat, k: Key, status: RequestStatus)
    requires i < |rs| && forall q :: q in rs ==> q.days > 0
    ensures 0 <= Weight(rs[i], k, status) <= SumDays(rs, k, status)
  {
    SumNonNegative(rs[..|rs| - 1], k, status);
    if i < |rs| - 1 { SumAtLeast(rs[..|rs| - 1], i, k, status); }
  }

  lemma {:induction false} SumNonNegative(rs: seq<Request>, k: Key, status: RequestStatus)
    requires forall q :: q in rs ==> q.days > 0
    ensures 0 <= SumDays(rs, k, status)
  {
    if rs != [] { SumNonNegative(rs[..|rs| - 1], k, status); }
  }

  function PendingOf(st: Store, k: Key): int { if k in st.balances then st.balances[k].pending else 0 }

  function UsedOf(st: Store, k: Key): int { if k in st.balances then st.balances[k].used else 0 }

  predicate HasBalance(st: Store, t: TypeId) { t in st.types && st.types[t].requiresBalance }

  ghost predicate Agrees(st: Store, rs: seq<Request>, k: Key) {
    HasBalance(st, k.ltype) ==>
      PendingOf(st, k) == SumDays(rs, k, Pending) && UsedOf(st, k) == SumDays(rs, k, Approved)
  }

  /** Every stored balance is the sum over the request history, though it is never recomputed from it. */
  ghost predicate BalancesAgree(st: Store, rs: seq<Request>) {
    (forall k :: k in st.balances ==> HasBalance(st, k.ltype)) && forall k: Key :: Agrees(st, rs, k)
  }

  // ---- the carry-over life cycle ----

  ghost predicate BalanceOk(b: Balance, k: Key) {
    && 0 <= b.expired <= b.carried
    && (!b.applied ==> b.carried == 0 && b.expiresOn.None?)
    && (!b.closed ==> b.expired == 0)
    && (b.closed ==> b.expiresOn.Some?)
    && (b.expiresOn.Some? ==> exists months: nat :: b.expiresOn == CarryOverExpiry(k.year, months))
  }

  ghost predicate StoreOk(st: Store) {
    && (forall k :: k in st.balances ==> BalanceOk(st.balances[k], k))
    && (forall e :: e in st.employees ==> HistoryOk(st.employees[e]))
    && (forall t :: t in st.types ==> TypeOk(st.types[t]))
    && UniqueRules(st.policies)
  }

  ghost predicate Inv(l: Ledger) {
    && StoreOk(l.store)
    && (forall q :: q in l.requests ==> RequestOk(q, l.store.types))
    && NoOverlap(l.requests)
    && BalancesAgree(l.store, l.requests)
  }

  lemma InitInv()
    ensures Inv(EMPTY)
  {
    assert EMPTY.requests == [];
  }

  // ---- single moves ----

  /** Putting the balance row in place books nothing and is sound. */
  lemma GetBalanceKeeps(st: Store, rs: seq<Request>, k: Key)
    requires StoreOk(st) && BalancesAgree(st, rs) && HasBalance(st, k.ltype) && GetBalance(st, k).Some?
    ensures var st' := GetBalance(st, k).value;
            StoreOk(st') && BalancesAgree(st', rs) && k in st'.balances
            && st' == st.(balances := st'.balances)
            && (forall j :: j in st'.balances ==> j == k || (j in st.balances && st'.balances[j] == st.balances[j]))
            && (k in st.balances ==> st' == st)
  {
    hide EntitlementFor, HistoryOk, CarryOverExpiry;
    var st' := GetBalance(st, k).value;
    forall j: Key ensures Agrees(st', rs, j) { assert Agrees(st, rs, j); }
  }

  /** Moving days on one balance moves what it books by as much and nothing else. */
  lemma ReserveMoves(st: Store, k: Key, pending: int, used: int)
    requires StoreOk(st) && k in st.balances
    ensures StoreOk(Reserve(st, k, pending, used))
    ensures forall j: Key ::
              PendingOf(Reserve(st, k, pending, used), j) == PendingOf(st, j) + (if j == k then pending else 0)
    ensures forall j: Key :: UsedOf(Reserve(st, k, pending, used), j) == UsedOf(st, j) + (if j == k then used else 0)
  {
    hide HistoryOk, CarryOverExpiry;
  }

  lemma DecidedKeepsLadder(q: Request, actor: Actor, approve: bool)
    requires LadderOk(q) && q.status.Pending?
    requires (actor.hr || IsApprover(actor, q)) && actor.emp != Some(q.emp)
    ensures LadderOk(Decided(q, actor, approve))
  {}

  lemma CancelledKeepsLadder(q: Request)
    requires LadderOk(q) && IsActiveRequest(q)
    ensures LadderOk(q.(status := Cancelled, steps := SkipOpen(q.steps)))
  {}

  /** A request changes its status and its days move with it. */
  lemma StatusChangeKeeps(l: Ledger, i: nat, q': Request, st': Store)
    requires Inv(l) && i < |l.requests|
    requires var q := l.requests[i];
             q' == q.(status := q'.status, level := q'.level, steps := q'.steps) && IsActiveRequest(q) && LadderOk(q')
    requires StoreOk(st') && st'.types == l.store.types
    requires forall k :: k in st'.balances ==> HasBalance(st', k.ltype)
    requires HasBalance(l.store, q'.ltype) ==> forall k: Key ::
               PendingOf(st', k) ==
                 PendingOf(l.store, k) - Weight(l.requests[i], k, Pending) + Weight(q', k, Pending) &&
               UsedOf(st', k) == UsedOf(l.store, k) - Weight(l.requests[i], k, Approved) + Weight(q', k, Approved)
    requires !HasBalance(l.store, q'.ltype) ==> st' == l.store
    ensures Inv(l.(store := st', requests := l.requests[i := q']))
  {
    hide Weekdays, Year, LadderOk, StoreOk;
    var rs, rs' := l.requests, l.requests[i := q'];
    assert rs[i] in rs;
    forall q | q in rs' ensures RequestOk(q, st'.types) {}
    forall a, b | 0 <= a < b < |rs'| ensures Disjoint(rs'[a], rs'[b]) { assert Disjoint(rs[a], rs[b]); }
    forall k: Key ensures Agrees(st', rs', k) {
      assert Agrees(l.store, rs, k);
      SumUpdate(rs, i, q', k, Pending);
      SumUpdate(rs, i, q', k, Approved);
    }
  }

  /** Releasing under the invariant never fails and moves exactly the days given. */
  lemma ReleaseWorks(l: Ledger, i: nat, pending: int, used: int)
    requires Inv(l) && i < |l.requests| && IsActiveRequest(l.requests[i])
    ensures var q := l.requests[i];
            var r := Release(l.store, q, pending, used);
            r.Some? && StoreOk(r.value) && r.value.types == l.store.types
            && (forall k :: k in r.value.balances ==> HasBalance(l.store, k.ltype))
            && (HasBalance(l.store, q.ltype) ==> KeyOf(q) in l.store.balances)
            && (HasBalance(l.store, q.ltype) ==> r.value == Reserve(l.store, KeyOf(q), pending, used))
            && (HasBalance(l.store, q.ltype) ==>
                  forall k: Key ::
                    PendingOf(r.value, k) == PendingOf(l.store, k) + (if k == KeyOf(q) then pending else 0))
            && (HasBalance(l.store, q.ltype) ==>
                  forall k: Key :: UsedOf(r.value, k) == UsedOf(l.store, k) + (if k == KeyOf(q) then used else 0))
            && (!HasBalance(l.store, q.ltype) ==> r.value == l.store)
  {
    hide Weekdays, Year, LadderOk, StoreOk;
    var q := l.requests[i];
    assert q in l.requests;
    if HasBalance(l.store, q.ltype) {
      assert Agrees(l.store, l.requests, KeyOf(q));
      SumAtLeast(l.requests, i, KeyOf(q), q.status);
      assert KeyOf(q) in l.store.balances;
      ReserveMoves(l.store, KeyOf(q), pending, used);
    }
  }

  // ---- the steps ----

  lemma DecideKeeps(l: Ledger, actor: Actor, id: nat, approve: bool)
    requires Inv(l)
    ensures Inv(Decide(l, actor, id, approve).ledger)
  {
    hide LadderOk, StoreOk, BalancesAgree, NoOverlap, Release, Year;
    if id < |l.requests| && Decide(l, actor, id, approve).ledger != l {
      var q := l.requests[id];
      assert q in l.requests && RequestOk(q, l.store.types);
      DecidedKeepsLadder(q, actor, approve);
      var q' := Decided(q, actor, approve);
      ReleaseWorks(l, id, -q.days, if q'.status.Approved? then q.days else 0);
      StatusChangeKeeps(l, id, q', Decide(l, actor, id, approve).ledger.store);
    }
  }

  lemma CancelKeeps(l: Ledger, actor: Actor, id: nat, today: Date)
    requires Inv(l)
    ensures Inv(Cancel(l, actor, id, today).ledger)
  {
    hide LadderOk, StoreOk, BalancesAgree, NoOverlap, Release, Year;
    if id < |l.requests| && Cancel(l, actor, id, today).ledger != l {
      var q := l.requests[id];
      assert q in l.requests && RequestOk(q, l.store.types);
      CancelledKeepsLadder(q);
      ReleaseWorks(l, id, if q.status.Pending? then -q.days else 0, if q.status.Pending? then 0 else -q.days);
      StatusChangeKeeps(l, id, q.(status := Cancelled, steps := SkipOpen(q.steps)),
                        Cancel(l, actor, id, today).ledger.store);
    }
  }

  lemma NewRequestOk(l: Ledger, emp: EmpId, ltype: TypeId, start: Date, end: Date, key: Option<string>, today: Date)
    requires Inv(l) && ltype in l.store.types
    requires CheckRange(start, end).None? && |Workdays(start, end, l.holidays)| != 0
    ensures RequestOk(NewRequest(l, emp, ltype, start, end, |Workdays(start, end, l.holidays)|, key, today),
                      l.store.types)
  {
    WorkdaysAreWeekdays(start, end, l.holidays);
    assert TypeOk(l.store.types[ltype]);
  }

  /** What a valid evaluation guarantees. */
  lemma ValidEvaluation(l: Ledger, emp: EmpId, ltype: TypeId, start: Date, end: Date, today: Date)
    requires var ev := Evaluate(l, emp, ltype, start, end, today); ev.Ok? && ev.value.errors == []
    ensures ltype in l.store.types && CheckRange(start, end).None?
    ensures var ev := Evaluate(l, emp, ltype, start, end, today).value;
            ev.days == |Workdays(start, end, l.holidays)| != 0 && !HasOverlap(l.requests, emp, start, end)
            && if HasBalance(l.store, ltype)
               then GetBalance(l.store, Key(emp, ltype, Year(start))) == Some(ev.store) &&
                    ev.days <= ev.store.balances[Key(emp, ltype, Year(start))].Available()
               else ev.store == l.store
  {
    hide Workdays, Year, IsActiveAt, GetBalance, WithBalance;
  }

  lemma SubmitKeeps(l: Ledger, actor: Actor, ltype: TypeId, start: Date, end: Date, key: Option<string>, today: Date)
    requires Inv(l)
    ensures Inv(Submit(l, actor, ltype, start, end, key, today).ledger)
  {
    hide LadderOk, StoreOk, Evaluate, NewRequest, GetBalance, Year, Weekdays, Workdays, CheckRange;
    var l' := Submit(l, actor, ltype, start, end, key, today).ledger;
    if l' != l {
      var emp := actor.emp.value;
      var ev := Evaluate(l, emp, ltype, start, end, today).value;
      ValidEvaluation(l, emp, ltype, start, end, today);
      NewRequestOk(l, emp, ltype, start, end, key, today);
      var q := NewRequest(l, emp, ltype, start, end, ev.days, key, today);
      NewRequestFields(l, emp, ltype, start, end, ev.days, key, today);
      var rs, rs' := l.requests, l.requests + [q];
      if HasBalance(l.store, ltype) {
        GetBalanceKeeps(l.store, rs, KeyOf(q));
        ReserveMoves(ev.store, KeyOf(q), q.days, 0);
      }
      forall a, b | 0 <= a < b < |rs'| ensures Disjoint(rs'[a], rs'[b]) {
        if b < |rs| { assert Disjoint(rs[a], rs[b]); } else { assert rs[a] in rs; }
      }
      forall k: Key ensures Agrees(l'.store, rs', k) {
        assert Agrees(ev.store, rs, k);
        SumAppend(rs, q, k, Pending);
        SumAppend(rs, q, k, Approved);
      }
    }
  }

  lemma NewRequestFields(l: Ledger, emp: EmpId, ltype: TypeId, start: Date, end: Date, days: nat, key: Option<string>,
                         today: Date)
    requires ltype in l.store.types
    ensures var q := NewRequest(l, emp, ltype, start, end, days, key, today);
            q.emp == emp && q.ltype == ltype && q.start == start && q.end == end && q.days == days && q.status.Pending?
            && KeyOf(q) == Key(emp, ltype, Year(start))
  {}

  lemma AdjustKeeps(l: Ledger, k: Key, delta: int)
    requires Inv(l)
    ensures Inv(Adjust(l, k, delta).ledger)
  {
    hide RequestOk, NoOverlap, GetBalance, HistoryOk, CarryOverExpiry;
    var l' := Adjust(l, k, delta).ledger;
    if l' != l {
      GetBalanceKeeps(l.store, l.requests, k);
      var st := GetBalance(l.store, k).value;
      forall j: Key ensures Agrees(l'.store, l.requests, j) { assert Agrees(st, l.requests, j); }
    }
  }

  lemma ViewKeeps(l: Ledger, k: Key)
    requires Inv(l)
    ensures Inv(View(l, k).ledger)
  {
    hide RequestOk, NoOverlap, GetBalance, StoreOk, BalancesAgree;
    if View(l, k).ledger != l {
      GetBalanceKeeps(l.store, l.requests, k);
    }
  }

  /** `used` and `pending` never go below zero. */
  lemma BookedNonNegative(l: Ledger, k: Key)
    requires Inv(l)
    ensures PendingOf(l.store, k) >= 0 && UsedOf(l.store, k) >= 0
  {
    hide LadderOk, NoOverlap, StoreOk, Weekdays, Year;
    if k in l.store.balances {
      assert Agrees(l.store, l.requests, k);
      SumNonNegative(l.requests, k, Pending);
      SumNonNegative(l.requests, k, Approved);
    }
  }

  /** A job leaves every row sound and what it books untouched. */
  lemma JobRowKeeps(job: JobCode, st: Store, asOf: Date, lo: EmpId, hi: EmpId, k: Key)
    requires StoreOk(st) && k in ChunkKeys(job, st, asOf, lo, hi) && PendingOf(st, k) >= 0 && UsedOf(st, k) >= 0
    requires forall j :: j in st.balances ==> HasBalance(st, j.ltype)
    ensures HasBalance(st, k.ltype)
    ensures BalanceOk(Effect(job, st, asOf, k), k)
    ensures Effect(job, st, asOf, k).pending == PendingOf(st, k) && Effect(job, st, asOf, k).used == UsedOf(st, k)
  {
    hide PolicyAt, BasePolicy, HistoryOk, IsActiveAt, Year, CarryOverExpiry;
    var b := Effect(job, st, asOf, k);
    if job.AccrualJob? {
      if k in st.balances { assert BalanceOk(st.balances[k], k); }
      if (k in st.balances ==> !st.balances[k].applied) && Carry(st, k) > 0 {
        assert b.expiresOn == CarryOverExpiry(k.year, BasePolicy(st, k).value.expiryMonths);
      }
    } else {
      assert BalanceOk(st.balances[k], k);
    }
  }

  lemma JobKeeps(l: Ledger, job: JobCode, asOf: Date, lo: EmpId, hi: EmpId)
    requires Inv(l)
    ensures Inv(l.(store := RunChunk(job, l.store, asOf, lo, hi).0))
  {
    hide RequestOk, NoOverlap, HistoryOk, ChunkKeys, Effect, CountsFor, BalanceOk;
    var st, st' := l.store, RunChunk(job, l.store, asOf, lo, hi).0;
    var keys := ChunkKeys(job, st, asOf, lo, hi);
    forall k | k in keys
      ensures HasBalance(st, k.ltype) && BalanceOk(Effect(job, st, asOf, k), k)
      ensures Effect(job, st, asOf, k).pending == PendingOf(st, k) && Effect(job, st, asOf, k).used == UsedOf(st, k)
    {
      BookedNonNegative(l, k);
      JobRowKeeps(job, st, asOf, lo, hi, k);
    }
    forall k | k in st'.balances ensures BalanceOk(st'.balances[k], k) && HasBalance(st', k.ltype) {}
    forall k: Key ensures Agrees(st', l.requests, k) { assert Agrees(st, l.requests, k); }
  }

  lemma ConfigureKeeps(l: Ledger, e: Event)
    requires Inv(l)
    ensures Inv(Configure(l, e))
  {
    hide LadderOk, NoOverlap, HistoryOk, BalanceOk, NewJob, UniqueRules, Weekdays, Year;
    var l' := Configure(l, e);
    match e {
      case AddingJob(id, input, units) =>
        if l' != l {
          AddJobKeepsHistory(id, l.store.employees[id], input, units, l.store.employees.Keys);
        }
      case HiringEmployee(id, hireDate, row) => if l' != l { HireKeepsHistory(hireDate, row); }
      case _ =>
    }
    forall q | q in l'.requests ensures RequestOk(q, l'.store.types) { assert RequestOk(q, l.store.types); }
    forall k: Key ensures Agrees(l'.store, l'.requests, k) {
      assert Agrees(l.store, l.requests, k);
      NewTypeBooksNothing(l, k);
    }
  }

  lemma HireKeepsHistory(hireDate: Date, row: JobRow)
    requires row == FirstJob(hireDate, row.title, row.grade, row.unit, row.supervisor, row.etype)
    ensures HistoryOk(Employee(hireDate, [row]))
  {}

  /** No request and no balance belongs to a type that does not exist. */
  lemma NewTypeBooksNothing(l: Ledger, k: Key)
    requires Inv(l)
    ensures k.ltype !in l.store.types ==> k !in l.store.balances
    ensures k.ltype !in l.store.types ==> SumDays(l.requests, k, Pending) == 0 == SumDays(l.requests, k, Approved)
  {
    hide LadderOk, NoOverlap, StoreOk, Weekdays, Year;
    if k.ltype !in l.store.types {
      NoWeightNoSum(l.requests, k, Pending);
      NoWeightNoSum(l.requests, k, Approved);
    }
  }

  lemma {:induction false} NoWeightNoSum(rs: seq<Request>, k: Key, status: RequestStatus)
    requires forall q :: q in rs ==> q.ltype != k.ltype
    ensures SumDays(rs, k, status) == 0
  {
    if rs != [] { NoWeightNoSum(rs[..|rs| - 1], k, status); }
  }

  /** The invariant holds after every event. */
  lemma NextKeeps(l: Ledger, e: Event)
    requires Inv(l)
    ensures Inv(Next(l, e))
  {
    hide Inv, Submit, Decide, Cancel, Adjust, View, RunChunk, Configure;
    match e {
      case Submitting(actor, ltype, start, end, key, today) => SubmitKeeps(l, actor, ltype, start, end, key, today);
      case Deciding(actor, id, approve) => DecideKeeps(l, actor, id, approve);
      case Cancelling(actor, id, today) => CancelKeeps(l, actor, id, today);
      case Adjusting(k, delta) => AdjustKeeps(l, k, delta);
      case Viewing(k) => ViewKeeps(l, k);
      case RunningJob(job, asOf, lo, hi) => JobKeeps(l, job, asOf, lo, hi);
      case _ => ConfigureKeeps(l, e);
    }
  }

  /** The invariant holds in every ledger any sequence of events leads to. */
  lemma {:induction false} AlwaysInv(es: seq<Event>)
    ensures Inv(After(EMPTY, es))
  {
    if es == [] {
      InitInv();
    } else {
      AlwaysInv(es[..|es| - 1]);
      NextKeeps(After(EMPTY, es[..|es| - 1]), es[|es| - 1]);
    }
  }
}
