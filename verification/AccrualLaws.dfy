/** What the accrual and expiry jobs promise: a rerun changes nothing, the order and number of runs
    does not matter, a chunk depends on its own employees only, and expiry caps what is available. */
module AccrualLaws {
  import opened Common
  import opened Calendar
  import opened LeaveRules
  import opened JobHistory
  import opened LeaveAccrual

  predicate SameConfig(st: Store, st0: Store) {
    st.employees == st0.employees && st.types == st0.types && st.policies == st0.policies
  }

  /** What a chunk does, row by row. */
  lemma RunChunkRow(job: JobCode, st: Store, asOf: Date, lo: EmpId, hi: EmpId, k: Key)
    ensures SameConfig(RunChunk(job, st, asOf, lo, hi).0, st)
    ensures Lookup(RunChunk(job, st, asOf, lo, hi).0, k) ==
            (if k in ChunkKeys(job, st, asOf, lo, hi) then Some(Effect(job, st, asOf, k)) else Lookup(st, k))
  {
    hide CountsFor, Effect, ChunkKeys;
  }

  // ---- a chunk depends on its own employees only ----

  ghost predicate SameRange(st: Store, st0: Store, lo: EmpId, hi: EmpId) {
    SameConfig(st, st0) && forall k: Key :: lo <= k.emp <= hi ==> Lookup(st, k) == Lookup(st0, k)
  }

  lemma EffectDepends(job: JobCode, st: Store, st0: Store, asOf: Date, k: Key)
    requires SameRange(st, st0, k.emp, k.emp)
    ensures CanApply(job, st, k) <==> CanApply(job, st0, k)
    ensures CanApply(job, st, k) ==> Effect(job, st, asOf, k) == Effect(job, st0, asOf, k)
    ensures CanApply(job, st, k) ==> forall kind :: Reports(job, st, asOf, k, kind) == Reports(job, st0, asOf, k, kind)
  {
    hide PickPolicy, JobAsOf, ServiceMonths;
    assert Lookup(st, k) == Lookup(st0, k);
    assert Lookup(st, k.(year := k.year - 1)) == Lookup(st0, k.(year := k.year - 1));
  }

  lemma KeysDepend(job: JobCode, st: Store, st0: Store, asOf: Date, lo: EmpId, hi: EmpId)
    requires SameRange(st, st0, lo, hi)
    ensures ChunkKeys(job, st, asOf, lo, hi) == ChunkKeys(job, st0, asOf, lo, hi)
  {
    if job.ExpiryJob? {
      var a, b := ChunkKeys(job, st, asOf, lo, hi), ChunkKeys(job, st0, asOf, lo, hi);
      forall k: Key ensures k in a <==> k in b {
        if lo <= k.emp <= hi { assert Lookup(st, k) == Lookup(st0, k); }
      }
    }
  }

  lemma CountsDepend(job: JobCode, st: Store, st0: Store, asOf: Date, keys: set<Key>)
    requires forall k :: k in keys ==> CanApply(job, st, k) && SameRange(st, st0, k.emp, k.emp)
    ensures forall k :: k in keys ==> CanApply(job, st0, k)
    ensures CountsFor(job, st, asOf, keys) == CountsFor(job, st0, asOf, keys)
  {
    hide Reports, SameRange;
    forall k | k in keys
      ensures CanApply(job, st0, k)
              && forall kind :: Reports(job, st, asOf, k, kind) == Reports(job, st0, asOf, k, kind)
    {
      EffectDepends(job, st, st0, asOf, k);
    }
    hide Count;
    CountSame(keys, ReportsKind(job, st, asOf, BalanceCreated), ReportsKind(job, st0, asOf, BalanceCreated));
    CountSame(keys, ReportsKind(job, st, asOf, EntitlementIncreased),
              ReportsKind(job, st0, asOf, EntitlementIncreased));
    CountSame(keys, ReportsKind(job, st, asOf, CarriedOver), ReportsKind(job, st0, asOf, CarriedOver));
    CountSame(keys, ReportsKind(job, st, asOf, CarryOverExpired), ReportsKind(job, st0, asOf, CarryOverExpired));
    CountSame(keys, ReportsKind(job, st, asOf, CarryOverFullyUsed), ReportsKind(job, st0, asOf, CarryOverFullyUsed));
  }

  // ---- reruns ----

  lemma NoReports(job: JobCode, st: Store, asOf: Date, keys: set<Key>)
    requires forall k :: k in keys ==> CanApply(job, st, k) && forall kind :: !Reports(job, st, asOf, k, kind)
    ensures CountsFor(job, st, asOf, keys) == ZERO
  {
    hide Reports, Count;
    CountNone(keys, ReportsKind(job, st, asOf, BalanceCreated));
    CountNone(keys, ReportsKind(job, st, asOf, EntitlementIncreased));
    CountNone(keys, ReportsKind(job, st, asOf, CarriedOver));
    CountNone(keys, ReportsKind(job, st, asOf, CarryOverExpired));
    CountNone(keys, ReportsKind(job, st, asOf, CarryOverFullyUsed));
  }

  /** Running a job again for the same date and range changes no balance and reports nothing. */
  lemma RerunChangesNothing(job: JobCode, st: Store, asOf: Date, lo: EmpId, hi: EmpId)
    ensures var once := RunChunk(job, st, asOf, lo, hi).0;
            RunChunk(job, once, asOf, lo, hi) == (once, ZERO)
  {
    hide CountsFor, Effect, Reports, ChunkKeys;
    var once := RunChunk(job, st, asOf, lo, hi).0;
    var keys := ChunkKeys(job, once, asOf, lo, hi);
    if job.AccrualJob? {
      forall k | k in keys
        ensures k in once.balances && Effect(job, once, asOf, k) == once.balances[k] &&
                forall kind :: !Reports(job, once, asOf, k, kind)
      {
        AccruedRow(st, asOf, lo, hi, k);
      }
    } else {
      NothingLeftToExpire(st, asOf, lo, hi);
    }
    NoReports(job, once, asOf, keys);
    assert Applied(job, once, asOf, keys).balances == once.balances;
  }

  lemma AccruedRow(st: Store, asOf: Date, lo: EmpId, hi: EmpId, k: Key)
    requires k in ChunkKeys(AccrualJob, RunChunk(AccrualJob, st, asOf, lo, hi).0, asOf, lo, hi)
    ensures var once := RunChunk(AccrualJob, st, asOf, lo, hi).0;
            k in once.balances && Effect(AccrualJob, once, asOf, k) == once.balances[k] &&
            forall kind :: !Reports(AccrualJob, once, asOf, k, kind)
  {
    hide PickPolicy, JobAsOf, ServiceMonths, CountsFor, DaysBeforeYear, Year;
    var once := RunChunk(AccrualJob, st, asOf, lo, hi).0;
    var keys := ChunkKeys(AccrualJob, st, asOf, lo, hi);
    var last := k.(year := k.year - 1);
    assert k in keys && last !in keys;
    assert Lookup(once, last) == Lookup(st, last);
    assert once.balances[k] == Accrued(st, k, asOf, Lookup(st, k));
  }

  lemma NothingLeftToExpire(st: Store, asOf: Date, lo: EmpId, hi: EmpId)
    ensures ChunkKeys(ExpiryJob, RunChunk(ExpiryJob, st, asOf, lo, hi).0, asOf, lo, hi) == {}
  {
    hide CountsFor, Year;
    var once := RunChunk(ExpiryJob, st, asOf, lo, hi).0;
    forall k | k in once.balances && lo <= k.emp <= hi && k.ltype in once.types ensures !FallsDue(once, asOf, k) {
      assert k in st.balances;
    }
  }

  // ---- many accrual runs in one year ----

  function RunMany(st: Store, dates: seq<Date>, lo: EmpId, hi: EmpId): Store {
    if dates == [] then st
    else RunChunk(AccrualJob, RunMany(st, dates[..|dates| - 1], lo, hi), dates[|dates| - 1], lo, hi).0
  }

  /** The accrual for this date works on the row. */
  predicate Due(st: Store, k: Key, d: Date, lo: EmpId, hi: EmpId) {
    k in ChunkKeys(AccrualJob, st, d, lo, hi)
  }

  function Target(st: Store, k: Key, d: Date): nat
    requires k.emp in st.employees
  {
    DaysOf(PolicyAt(st, k.emp, k.ltype, d))
  }

  function StartBalance(st: Store, k: Key): Balance
    requires k.emp in st.employees
  {
    if k in st.balances then st.balances[k] else NewBalance(DaysOf(BasePolicy(st, k)))
  }

  /** One row after the runs, each seeing the row the run before left and last year's row as it was. */
  function AccruedOver(st: Store, k: Key, dates: seq<Date>, lo: EmpId, hi: EmpId): Option<Balance> {
    if dates == [] then Lookup(st, k) else
      var r := AccruedOver(st, k, dates[..|dates| - 1], lo, hi);
      var d := dates[|dates| - 1];
      if Due(st, k, d, lo, hi) then Some(Accrued(st, k, d, r)) else r
  }

  lemma {:induction false} RunManyRows(st: Store, dates: seq<Date>, lo: EmpId, hi: EmpId, y: int)
    requires forall d :: d in dates ==> Year(d) == y
    ensures SameConfig(RunMany(st, dates, lo, hi), st)
    ensures forall k: Key :: k.year != y ==> Lookup(RunMany(st, dates, lo, hi), k) == Lookup(st, k)
    ensures forall k: Key :: k.year == y ==> Lookup(RunMany(st, dates, lo, hi), k) == AccruedOver(st, k, dates, lo, hi)
  {
    if dates != [] {
      var rest, d := dates[..|dates| - 1], dates[|dates| - 1];
      RunManyRows(st, rest, lo, hi, y);
      var mid := RunMany(st, rest, lo, hi);
      OneMoreRun(st, mid, d, lo, hi);
    }
  }

  /** A run over a store that differs from `st` in its own year's rows only. */
  lemma OneMoreRun(st: Store, mid: Store, d: Date, lo: EmpId, hi: EmpId)
    requires SameConfig(mid, st)
    requires forall k: Key :: k.year != Year(d) ==> Lookup(mid, k) == Lookup(st, k)
    ensures var next := RunChunk(AccrualJob, mid, d, lo, hi).0;
            SameConfig(next, st)
            && (forall k: Key :: k.year != Year(d) ==> Lookup(next, k) == Lookup(st, k))
            && (forall k: Key :: k.year == Year(d) ==>
                 Lookup(next, k) ==
                   (if Due(st, k, d, lo, hi) then Some(Accrued(st, k, d, Lookup(mid, k))) else Lookup(mid, k)))
  {
    hide RunChunk, Year, Accrued, IsActiveAt, AccrualTypes, Lookup;
    var next := RunChunk(AccrualJob, mid, d, lo, hi).0;
    RunChunkRow(AccrualJob, mid, d, lo, hi, Key(0, 0, 0));
    forall k: Key
      ensures Lookup(next, k) ==
              if Due(st, k, d, lo, hi) then Some(Accrued(st, k, d, Lookup(mid, k))) else Lookup(mid, k)
    {
      RunChunkRow(AccrualJob, mid, d, lo, hi, k);
      SameKeys(st, mid, d, lo, hi);
      if Due(st, k, d, lo, hi) {
        AccruedDepends(st, mid, d, k, Lookup(mid, k));
      }
    }
  }

  lemma SameKeys(st: Store, mid: Store, d: Date, lo: EmpId, hi: EmpId)
    requires SameConfig(mid, st)
    ensures ChunkKeys(AccrualJob, mid, d, lo, hi) == ChunkKeys(AccrualJob, st, d, lo, hi)
  {}

  lemma AccruedDepends(st: Store, mid: Store, d: Date, k: Key, current: Option<Balance>)
    requires SameConfig(mid, st) && k.emp in st.employees
    requires Lookup(mid, k.(year := k.year - 1)) == Lookup(st, k.(year := k.year - 1))
    ensures Accrued(mid, k, d, current) == Accrued(st, k, d, current)
  {
    hide PickPolicy, JobAsOf, ServiceMonths, DaysBeforeYear;
  }

  /** The greatest of the entitlement to start with and the targets of the dates worked on. */
  function BestTarget(st: Store, k: Key, dates: seq<Date>, lo: EmpId, hi: EmpId): int
    requires k.emp in st.employees
  {
    if dates == [] then StartBalance(st, k).entitled else
      var r := BestTarget(st, k, dates[..|dates| - 1], lo, hi);
      var d := dates[|dates| - 1];
      if Due(st, k, d, lo, hi) then Max(r, Target(st, k, d)) else r
  }

  ghost predicate AnyDue(st: Store, k: Key, dates: seq<Date>, lo: EmpId, hi: EmpId) {
    exists d :: d in dates && Due(st, k, d, lo, hi)
  }

  ghost predicate IsBest(e: int, st: Store, k: Key, dates: seq<Date>, lo: EmpId, hi: EmpId)
    requires k.emp in st.employees
  {
    && e >= StartBalance(st, k).entitled
    && (forall d :: d in dates && Due(st, k, d, lo, hi) ==> e >= Target(st, k, d))
    && (e == StartBalance(st, k).entitled || exists d :: d in dates && Due(st, k, d, lo, hi) && e == Target(st, k, d))
  }

  lemma {:induction false} BestTargetIsBest(st: Store, k: Key, dates: seq<Date>, lo: EmpId, hi: EmpId)
    requires k.emp in st.employees
    ensures IsBest(BestTarget(st, k, dates, lo, hi), st, k, dates, lo, hi)
  {
    hide Due, Target, StartBalance;
    if dates != [] {
      var rest, d := dates[..|dates| - 1], dates[|dates| - 1];
      BestTargetIsBest(st, k, rest, lo, hi);
      assert forall x :: x in dates <==> x in rest || x == d;
    }
  }

  lemma {:induction false} AccruedOverClosed(st: Store, k: Key, dates: seq<Date>, lo: EmpId, hi: EmpId)
    requires k.emp in st.employees
    ensures AccruedOver(st, k, dates, lo, hi) ==
            if AnyDue(st, k, dates, lo, hi)
            then Some(WithCarry(st, k, StartBalance(st, k)).(entitled := BestTarget(st, k, dates, lo, hi)))
            else Lookup(st, k)
    ensures !AnyDue(st, k, dates, lo, hi) ==> BestTarget(st, k, dates, lo, hi) == StartBalance(st, k).entitled
  {
    hide Due, Carry, PolicyAt, BasePolicy, CarryOverExpiry;
    if dates != [] {
      var rest, d := dates[..|dates| - 1], dates[|dates| - 1];
      AccruedOverClosed(st, k, rest, lo, hi);
      assert forall x :: x in dates <==> x in rest || x == d;
      assert AnyDue(st, k, dates, lo, hi) <==> AnyDue(st, k, rest, lo, hi) || Due(st, k, d, lo, hi);
    }
  }

  /** After accrual runs at any dates of one year, in any order and with repeats, a row some run works on
      has the greatest of its first entitlement and the targets at those dates, and the one carry-over. */
  lemma AccrualOverAYear(st: Store, dates: seq<Date>, lo: EmpId, hi: EmpId, k: Key)
    requires forall d :: d in dates ==> Year(d) == k.year
    requires k.emp in st.employees
    ensures var r := Lookup(RunMany(st, dates, lo, hi), k);
            if AnyDue(st, k, dates, lo, hi)
            then r.Some? && IsBest(r.value.entitled, st, k, dates, lo, hi) &&
                 r.value == WithCarry(st, k, StartBalance(st, k)).(entitled := r.value.entitled)
            else r == Lookup(st, k)
  {
    hide Due, Target, StartBalance, WithCarry;
    RunManyRows(st, dates, lo, hi, k.year);
    AccruedOverClosed(st, k, dates, lo, hi);
    BestTargetIsBest(st, k, dates, lo, hi);
  }

  /** The order and the number of the runs do not matter, only the set of their dates. */
  lemma AccrualOrderFree(st: Store, ds: seq<Date>, es: seq<Date>, lo: EmpId, hi: EmpId, y: int)
    requires forall d :: d in ds ==> Year(d) == y
    requires forall d :: d in ds <==> d in es
    ensures RunMany(st, ds, lo, hi) == RunMany(st, es, lo, hi)
  {
    hide Due, Target, StartBalance, WithCarry;
    var a, b := RunMany(st, ds, lo, hi), RunMany(st, es, lo, hi);
    RunManyRows(st, ds, lo, hi, y);
    RunManyRows(st, es, lo, hi, y);
    forall k: Key ensures Lookup(a, k) == Lookup(b, k) {
      if k.year == y {
        SameRowOver(st, ds, es, lo, hi, k);
      }
    }
    LookupDecides(a, b);
  }

  lemma BestIsUnique(e: int, f: int, st: Store, k: Key, ds: seq<Date>, es: seq<Date>, lo: EmpId, hi: EmpId)
    requires k.emp in st.employees && forall d :: d in ds <==> d in es
    requires IsBest(e, st, k, ds, lo, hi) && IsBest(f, st, k, es, lo, hi)
    ensures e == f
  {
    hide Due, Target, StartBalance;
  }

  lemma SameRowOver(st: Store, ds: seq<Date>, es: seq<Date>, lo: EmpId, hi: EmpId, k: Key)
    requires forall d :: d in ds <==> d in es
    ensures AccruedOver(st, k, ds, lo, hi) == AccruedOver(st, k, es, lo, hi)
  {
    if k.emp in st.employees {
      hide Due, Target, StartBalance, WithCarry;
      AccruedOverClosed(st, k, ds, lo, hi);
      AccruedOverClosed(st, k, es, lo, hi);
      BestTargetIsBest(st, k, ds, lo, hi);
      BestTargetIsBest(st, k, es, lo, hi);
      BestIsUnique(BestTarget(st, k, ds, lo, hi), BestTarget(st, k, es, lo, hi), st, k, ds, es, lo, hi);
    } else {
      NeverDue(st, k, ds, lo, hi);
      NeverDue(st, k, es, lo, hi);
    }
  }

  lemma {:induction false} NeverDue(st: Store, k: Key, dates: seq<Date>, lo: EmpId, hi: EmpId)
    requires k.emp !in st.employees
    ensures AccruedOver(st, k, dates, lo, hi) == Lookup(st, k)
  {
    if dates != [] { NeverDue(st, k, dates[..|dates| - 1], lo, hi); }
  }

  lemma LookupDecides(a: Store, b: Store)
    requires SameConfig(a, b) && forall k: Key :: Lookup(a, k) == Lookup(b, k)
    ensures a == b
  {
    forall k: Key ensures k in a.balances <==> k in b.balances { assert Lookup(a, k) == Lookup(b, k); }
    forall k | k in a.balances ensures a.balances[k] == b.balances[k] { assert Lookup(a, k) == Lookup(b, k); }
    assert a.balances == b.balances;
  }

  // ---- creating the balance first ----

  lemma EntitlementIsBase(st: Store, k: Key)
    requires k.emp in st.employees
    ensures EntitlementFor(st, k) == DaysOf(BasePolicy(st, k))
  {
    hide PickPolicy, OfType, JobAsOf, ServiceMonths;
    var e := st.employees[k.emp];
    var reference := Max(JanFirst(k.year), e.hireDate);
    PickPolicyFromType(st.policies, k.ltype, GradeAt(e, reference), ServiceMonths(e.hireDate, reference));
  }

  /** A balance a page view or a request created before the accrual ends as if the accrual had created it. */
  lemma LazyCreationMakesNoDifference(st: Store, asOf: Date, lo: EmpId, hi: EmpId, k: Key)
    requires k in ChunkKeys(AccrualJob, st, asOf, lo, hi)
    ensures RunChunk(AccrualJob, WithBalance(st, k), asOf, lo, hi).0 == RunChunk(AccrualJob, st, asOf, lo, hi).0
  {
    hide RunChunk, Year, Accrued, ChunkKeys;
    EntitlementIsBase(st, k);
    var st' := WithBalance(st, k);
    var a, b := RunChunk(AccrualJob, st', asOf, lo, hi).0, RunChunk(AccrualJob, st, asOf, lo, hi).0;
    SameKeys(st, st', asOf, lo, hi);
    forall q: Key ensures Lookup(a, q) == Lookup(b, q) {
      RunChunkRow(AccrualJob, st', asOf, lo, hi, q);
      RunChunkRow(AccrualJob, st, asOf, lo, hi, q);
      if q in ChunkKeys(AccrualJob, st, asOf, lo, hi) {
        FirstBalance(st, k, q, asOf);
      }
    }
    RunChunkRow(AccrualJob, st', asOf, lo, hi, k);
    RunChunkRow(AccrualJob, st, asOf, lo, hi, k);
    LookupDecides(a, b);
  }

  lemma FirstBalance(st: Store, k: Key, q: Key, asOf: Date)
    requires k.emp in st.employees && q.emp in st.employees && q.year == k.year
    ensures var st' := WithBalance(st, k);
            Accrued(st', q, asOf, Lookup(st', q)) == Accrued(st, q, asOf, Lookup(st, q))
  {
    hide PickPolicy, JobAsOf, ServiceMonths, DaysBeforeYear, EntitlementFor;
    EntitlementIsBase(st, k);
    var st' := WithBalance(st, k);
    assert Lookup(st', q.(year := q.year - 1)) == Lookup(st, q.(year := q.year - 1));
  }

  // ---- expiry ----

  /** Expiry leaves exactly the smaller of what was available and what the year itself grants. */
  lemma ExpiryCapsAvailable(b: Balance)
    requires b.expired == 0
    ensures Expired(b).Available() == Min(b.Available(), b.entitled + b.adjusted)
  {}

  /** A row whose due date came from a policy expires only from that date to the end of its own year,
      and only for a policy of 1 to 11 months. */
  lemma ExpiryWindow(st: Store, asOf: Date, lo: EmpId, hi: EmpId, k: Key, months: nat)
    requires k in st.balances && st.balances[k].expiresOn == CarryOverExpiry(k.year, months)
    ensures k in ChunkKeys(ExpiryJob, st, asOf, lo, hi) <==>
            lo <= k.emp <= hi && k.ltype in st.types && !st.balances[k].closed &&
            1 <= months <= 11 && Ymd(k.year, months + 1, 1) <= asOf <= DecLast(k.year)
  {
    InYear(asOf, k.year);
    if Year(asOf) == k.year {
      CarryOverFallsDueInYear(k.year, months, asOf);
    } else if 1 <= months <= 11 && Ymd(k.year, months + 1, 1) <= asOf {
      assert JanFirst(k.year) <= Ymd(k.year, months + 1, 1);
    }
  }
}
