/** The accrual while the service is in use: requests, decisions, cancellations, corrections, page views and expiry
    runs write the same balance rows between its chunks, and it still accrues what one pass would. */
module JobTraffic {
  import opened Common
  import opened Calendar
  import opened LeaveRules
  import opened JobHistory
  import opened LeaveAccrual
  import opened AccrualLaws
  import opened LeaveLedger
  import opened JobRuns
  import opened JobInvariants
  import opened JobTheorems
  import opened JobRefinement

  // ---- the part of a row the accrual decides ----

  /** The entitlement and the days carried over, with their due date; the rest of the service has the other fields. */
  function AccrualPart(b: Balance): Balance {
    b.(adjusted := 0, used := 0, pending := 0, expired := 0, closed := false)
  }

  /** That part of a row, which counts as there with the entitlement it would be created with. */
  function PartAt(st: Store, k: Key): Balance
    requires k.emp in st.employees
  {
    AccrualPart(if k in st.balances then st.balances[k] else NewBalance(DaysOf(BasePolicy(st, k))))
  }

  lemma PartDepends(st': Store, st: Store, k: Key)
    requires SameConfig(st', st) && k.emp in st.employees
    ensures BasePolicy(st', k) == BasePolicy(st, k)
    ensures Lookup(st', k) == Lookup(st, k) ==> PartAt(st', k) == PartAt(st, k)
  {
    hide PickPolicy, JobAsOf, ServiceMonths, JanFirst;
  }

  /** The accrual of a row depends on that part alone, and on last year's row. */
  lemma AccruedPart(st: Store, asOf: Date, k: Key)
    requires k.emp in st.employees
    ensures AccrualPart(Effect(AccrualJob, st, asOf, k)) == Accrued(st, k, asOf, Some(PartAt(st, k)))
  {
    hide PolicyAt, BasePolicy, Carry, CarryOverExpiry;
  }

  // ---- what leaves that part alone ----

  /** The same employees, types and policies, last year's rows as they were, and the accrual part of this year's. */
  ghost predicate SameParts(st': Store, st: Store, year: int) {
    && SameConfig(st', st)
    && st.balances.Keys <= st'.balances.Keys
    && (forall k: Key :: k.year == year - 1 ==> Lookup(st', k) == Lookup(st, k))
    && (forall k: Key :: k.year == year && k.emp in st.employees ==> PartAt(st', k) == PartAt(st, k))
  }

  lemma SamePartsTrans(st'': Store, st': Store, st: Store, year: int)
    requires SameParts(st'', st', year) && SameParts(st', st, year)
    ensures SameParts(st'', st, year)
  {
    hide PartAt;
  }

  lemma OneRow(st: Store, k: Key, b: Balance, year: int)
    requires k.year != year - 1
    requires k.year == year && k.emp in st.employees ==> AccrualPart(b) == PartAt(st, k)
    ensures SameParts(st.(balances := st.balances[k := b]), st, year)
  {
    hide BasePolicy, AccrualPart;
    var st' := st.(balances := st.balances[k := b]);
    forall q: Key | q.year == year && q.emp in st.employees ensures PartAt(st', q) == PartAt(st, q) {
      PartDepends(st', st, q);
    }
  }

  lemma SameSelf(st: Store, year: int)
    ensures SameParts(st, st, year)
  {
    hide PartAt;
  }

  lemma CreatedRow(st: Store, k: Key, year: int)
    requires k.emp in st.employees && k.year != year - 1
    ensures SameParts(WithBalance(st, k), st, year)
  {
    hide BasePolicy, EntitlementFor;
    EntitlementIsBase(st, k);
    if k in st.balances { SameSelf(st, year); } else { OneRow(st, k, NewBalance(EntitlementFor(st, k)), year); }
  }

  lemma MovedRow(st: Store, k: Key, adjusted: int, pending: int, used: int, year: int)
    requires k in st.balances && k.year != year - 1
    ensures var b := st.balances[k].(adjusted := adjusted, pending := pending, used := used);
            SameParts(st.(balances := st.balances[k := b]), st, year)
  {
    hide SameParts;
    OneRow(st, k, st.balances[k].(adjusted := adjusted, pending := pending, used := used), year);
  }

  lemma GotRow(st: Store, k: Key, year: int)
    requires GetBalance(st, k).Some? && k.year != year - 1
    ensures SameParts(GetBalance(st, k).value, st, year)
  {
    hide SameParts, WithBalance;
    if k in st.balances { SameSelf(st, year); } else { CreatedRow(st, k, year); }
  }

  lemma ReservedRow(st: Store, k: Key, days: int, used: int, year: int)
    requires k in st.balances && k.year != year - 1
    ensures SameParts(Reserve(st, k, days, used), st, year)
  {
    hide SameParts;
    var b := st.balances[k];
    MovedRow(st, k, b.adjusted, b.pending + days, b.used + used, year);
  }

  /** A use of the service that stays away from last year's balances: requests by the year of their first day. */
  predicate SparesLastYear(l: Ledger, e: Event, year: int) {
    match e
    case Submitting(_, _, start, _, _, _) => Year(start) != year - 1
    case Deciding(_, id, _) => id < |l.requests| ==> Year(l.requests[id].start) != year - 1
    case Cancelling(_, id, _) => id < |l.requests| ==> Year(l.requests[id].start) != year - 1
    case Adjusting(k, _) => k.year != year - 1
    case Viewing(k) => k.year != year - 1
    case SettingHolidays(_) => true
    case _ => false
  }

  lemma EventSpares(l: Ledger, e: Event, year: int)
    requires SparesLastYear(l, e, year)
    ensures SameParts(Next(l, e).store, l.store, year)
  {
    hide SameParts, Submit, Decide, Cancel, Adjust, View, Year;
    SameSelf(l.store, year);
    match e {
      case Submitting(actor, ltype, start, end, key, today) =>
        SubmitSpares(l, actor, ltype, start, end, key, today, year);
      case Deciding(actor, id, approve) => DecideSpares(l, actor, id, approve, year);
      case Cancelling(actor, id, today) => CancelSpares(l, actor, id, today, year);
      case Adjusting(k, delta) => AdjustSpares(l, k, delta, year);
      case Viewing(k) => ViewSpares(l, k, year);
      case SettingHolidays(_) =>
    }
  }

  lemma EvaluateSpares(l: Ledger, emp: EmpId, ltype: TypeId, start: Date, end: Date, today: Date, year: int)
    requires Evaluate(l, emp, ltype, start, end, today).Ok? && Year(start) != year - 1
    ensures SameParts(Evaluate(l, emp, ltype, start, end, today).value.store, l.store, year)
  {
    hide SameParts, GetBalance, Year, RequestErrors, Workdays, CheckRange;
    SameSelf(l.store, year);
    var k := Key(emp, ltype, Year(start));
    if GetBalance(l.store, k).Some? { GotRow(l.store, k, year); }
  }

  lemma EvaluatedRow(l: Ledger, emp: EmpId, ltype: TypeId, start: Date, end: Date, today: Date)
    requires Evaluate(l, emp, ltype, start, end, today).Ok?
    ensures ltype in l.store.types
    ensures var ev := Evaluate(l, emp, ltype, start, end, today).value;
            ev.errors == [] && l.store.types[ltype].requiresBalance ==>
              Key(emp, ltype, Year(start)) in ev.store.balances
  {
    hide Year, RequestErrors, Workdays;
  }

  lemma SubmitSpares(l: Ledger, actor: Actor, ltype: TypeId, start: Date, end: Date, key: Option<string>, today: Date,
                     year: int)
    requires Year(start) != year - 1
    ensures SameParts(Submit(l, actor, ltype, start, end, key, today).ledger.store, l.store, year)
  {
    hide SameParts, Evaluate, Reserve, Year, InsertRejected, FindKey;
    SameSelf(l.store, year);
    if actor.emp.Some? && Evaluate(l, actor.emp.value, ltype, start, end, today).Ok? {
      EvaluatedRow(l, actor.emp.value, ltype, start, end, today);
      EvaluateSpares(l, actor.emp.value, ltype, start, end, today, year);
      var ev := Evaluate(l, actor.emp.value, ltype, start, end, today).value;
      var k := Key(actor.emp.value, ltype, Year(start));
      var q := NewRequest(l, actor.emp.value, ltype, start, end, ev.days, key, today);
      assert KeyOf(q) == k && q.days == ev.days;
      if k in ev.store.balances {
        ReservedRow(ev.store, k, ev.days, 0, year);
        SamePartsTrans(Reserve(ev.store, k, ev.days, 0), ev.store, l.store, year);
      }
    }
  }

  lemma ReleaseSpares(st: Store, q: Request, pending: int, used: int, year: int)
    requires Release(st, q, pending, used).Some? && Year(q.start) != year - 1
    ensures SameParts(Release(st, q, pending, used).value, st, year)
  {
    hide SameParts, Reserve, Year;
    SameSelf(st, year);
    if GetBalance(st, KeyOf(q)).Some? {
      var st' := GetBalance(st, KeyOf(q)).value;
      GotRow(st, KeyOf(q), year);
      ReservedRow(st', KeyOf(q), pending, used, year);
      SamePartsTrans(Reserve(st', KeyOf(q), pending, used), st', st, year);
    }
  }

  lemma DecideSpares(l: Ledger, actor: Actor, id: nat, approve: bool, year: int)
    requires id < |l.requests| ==> Year(l.requests[id].start) != year - 1
    ensures SameParts(Decide(l, actor, id, approve).ledger.store, l.store, year)
  {
    hide SameParts, Release, Year, Decided, IsApprover, CanView;
    SameSelf(l.store, year);
    if id < |l.requests| {
      var q := l.requests[id];
      if Release(l.store, q, -q.days, 0).Some? { ReleaseSpares(l.store, q, -q.days, 0, year); }
      if Release(l.store, q, -q.days, q.days).Some? { ReleaseSpares(l.store, q, -q.days, q.days, year); }
    }
  }

  lemma CancelSpares(l: Ledger, actor: Actor, id: nat, today: Date, year: int)
    requires id < |l.requests| ==> Year(l.requests[id].start) != year - 1
    ensures SameParts(Cancel(l, actor, id, today).ledger.store, l.store, year)
  {
    hide SameParts, Release, Year, CanView, SkipOpen;
    SameSelf(l.store, year);
    if id < |l.requests| {
      var q := l.requests[id];
      if Release(l.store, q, -q.days, 0).Some? { ReleaseSpares(l.store, q, -q.days, 0, year); }
      if Release(l.store, q, 0, -q.days).Some? { ReleaseSpares(l.store, q, 0, -q.days, year); }
    }
  }

  lemma AdjustSpares(l: Ledger, k: Key, delta: int, year: int)
    requires k.year != year - 1
    ensures SameParts(Adjust(l, k, delta).ledger.store, l.store, year)
  {
    hide SameParts, GetBalance;
    SameSelf(l.store, year);
    if GetBalance(l.store, k).Some? {
      var st := GetBalance(l.store, k).value;
      GotRow(l.store, k, year);
      HasRow(l.store, k);
      var b := st.balances[k];
      MovedRow(st, k, b.adjusted + delta, b.pending, b.used, year);
      SamePartsTrans(st.(balances := st.balances[k := b.(adjusted := b.adjusted + delta)]), st, l.store, year);
    }
  }

  lemma HasRow(st: Store, k: Key)
    requires GetBalance(st, k).Some?
    ensures k in GetBalance(st, k).value.balances
  {}

  lemma ViewSpares(l: Ledger, k: Key, year: int)
    requires k.year != year - 1
    ensures SameParts(View(l, k).ledger.store, l.store, year)
  {
    hide SameParts, GetBalance;
    SameSelf(l.store, year);
    if GetBalance(l.store, k).Some? { GotRow(l.store, k, year); }
  }

  /** An expiry chunk closes rows of its own year, and takes nothing from the accrual part. */
  lemma ExpirySpares(st: Store, asOf: Date, lo: EmpId, hi: EmpId, year: int)
    requires Year(asOf) != year - 1
    ensures SameParts(RunChunk(ExpiryJob, st, asOf, lo, hi).0, st, year)
  {
    hide RunChunk, Year, ChunkKeys, BasePolicy, FallsDue;
    var st' := RunChunk(ExpiryJob, st, asOf, lo, hi).0;
    RunChunkRow(ExpiryJob, st, asOf, lo, hi, Key(0, 0, 0));
    forall k: Key
      ensures k in st.balances ==> k in st'.balances
      ensures k.year == year - 1 ==> Lookup(st', k) == Lookup(st, k)
      ensures k.year == year && k.emp in st.employees ==> PartAt(st', k) == PartAt(st, k)
    {
      RunChunkRow(ExpiryJob, st, asOf, lo, hi, k);
      if k.emp in st.employees { PartDepends(st', st, k); }
    }
  }

  // ---- part of the accrual done ----

  /** Of what was there at the start: last year's row, and this year's with the accrual done or still open. */
  predicate RowIs(st: Store, base: Store, asOf: Date, done: set<Key>, k: Key)
    requires st.employees == base.employees
  {
    && (k.year == Year(asOf) - 1 ==> Lookup(st, k) == Lookup(base, k))
    && (k.year == Year(asOf) && k.emp in base.employees ==>
         PartAt(st, k) == if k in done then AccrualPart(Effect(AccrualJob, base, asOf, k)) else PartAt(base, k))
    && (k in done ==> k in st.balances)
  }

  ghost predicate PartlyAccrued(st: Store, base: Store, asOf: Date, done: set<Key>) {
    SameConfig(st, base) && forall k: Key :: RowIs(st, base, asOf, done, k)
  }

  lemma NothingAccrued(base: Store, asOf: Date)
    ensures PartlyAccrued(base, base, asOf, {})
  {
    hide PartAt, AccrualPart, Effect, Year;
  }

  lemma TrafficGoesOn(st': Store, st: Store, base: Store, asOf: Date, done: set<Key>)
    requires PartlyAccrued(st, base, asOf, done) && SameParts(st', st, Year(asOf))
    ensures PartlyAccrued(st', base, asOf, done)
  {
    hide PartAt, AccrualPart, Effect, Year, RowIs;
    forall k: Key ensures RowIs(st', base, asOf, done, k) {
      assert RowIs(st, base, asOf, done, k);
      TrafficRow(st', st, base, asOf, done, k);
    }
  }

  lemma TrafficRow(st': Store, st: Store, base: Store, asOf: Date, done: set<Key>, k: Key)
    requires SameConfig(st, base) && RowIs(st, base, asOf, done, k) && SameParts(st', st, Year(asOf))
    ensures RowIs(st', base, asOf, done, k)
  {
    hide PartAt, AccrualPart, Effect, Year;
  }

  /** A row of a chunk gets what it would have got at the start. */
  lemma RowAccrued(st: Store, base: Store, asOf: Date, done: set<Key>, k: Key)
    requires SameConfig(st, base) && RowIs(st, base, asOf, done, k)
             && RowIs(st, base, asOf, done, k.(year := k.year - 1))
    requires k !in done && k.emp in base.employees && k.year == Year(asOf)
    ensures AccrualPart(Effect(AccrualJob, st, asOf, k)) == AccrualPart(Effect(AccrualJob, base, asOf, k))
  {
    hide PartAt, AccrualPart, Effect, Accrued, Year;
    AccruedPart(st, asOf, k);
    AccruedPart(base, asOf, k);
    AccruedDepends(base, st, asOf, k, Some(PartAt(base, k)));
  }

  lemma ChunkGoesOn(st: Store, base: Store, asOf: Date, done: set<Key>, r: Range)
    requires PartlyAccrued(st, base, asOf, done) && forall k :: k in done ==> !InRange(k.emp, r)
    ensures PartlyAccrued(RunChunk(AccrualJob, st, asOf, r.first, r.last).0, base, asOf,
                          done + RangeKeys(AccrualJob, base, asOf, r))
  {
    hide RunChunk, Effect, AccrualPart, Year, ChunkKeys, BasePolicy, RowIs;
    var st', keys := RunChunk(AccrualJob, st, asOf, r.first, r.last).0, RangeKeys(AccrualJob, base, asOf, r);
    RunChunkRow(AccrualJob, st, asOf, r.first, r.last, Key(0, 0, 0));
    SameKeys(base, st, asOf, r.first, r.last);
    forall k: Key ensures RowIs(st', base, asOf, done + keys, k) {
      RunChunkRow(AccrualJob, st, asOf, r.first, r.last, k);
      assert RowIs(st, base, asOf, done, k) && RowIs(st, base, asOf, done, k.(year := k.year - 1));
      if k in keys { RowAccrued(st, base, asOf, done, k); }
      ChunkRow(st', st, base, asOf, done, keys, k);
    }
  }

  lemma ChunkRow(st': Store, st: Store, base: Store, asOf: Date, done: set<Key>, keys: set<Key>, k: Key)
    requires SameConfig(st', st) && SameConfig(st, base) && RowIs(st, base, asOf, done, k)
    requires k in keys ==>
               && k !in done && k.emp in base.employees && k.year == Year(asOf)
               && AccrualPart(Effect(AccrualJob, st, asOf, k)) == AccrualPart(Effect(AccrualJob, base, asOf, k))
    requires Lookup(st', k) == if k in keys then Some(Effect(AccrualJob, st, asOf, k)) else Lookup(st, k)
    ensures RowIs(st', base, asOf, done + keys, k)
  {
    hide Effect, Year, BasePolicy, AccrualPart;
    if k.emp in st.employees { PartDepends(st', st, k); }
  }

  // ---- the run among everything else ----

  /** Anything may happen that leaves last year's balances and the configuration alone, but for another accrual. */
  ghost predicate Spares(s: System, a: Action, t: TenantId, id: RunId) {
    match a
    case Leave(u, e) => u == t ==> SparesLastYear(LedgerOf(s, t), e, YearOf(s, id))
    case Executing(u, r, _) => u == t && r != id && RunIn(s, t, r, Running) ==> HarmlessRun(s.runs[r], YearOf(s, id))
    case _ => true
  }

  predicate HarmlessRun(run: Run, year: int) { run.dryRun || (run.job.ExpiryJob? && Year(run.asOf) != year - 1) }

  function YearOf(s: System, id: RunId): int { if id in s.runs then Year(s.runs[id].asOf) else 0 }

  ghost predicate SparesThroughout(s: System, actions: seq<Action>, t: TenantId, id: RunId) {
    actions != [] ==>
      var before := actions[..|actions| - 1];
      SparesThroughout(s, before, t, id) && Spares(Reach(s, before), actions[|actions| - 1], t, id)
  }

  /** Every such action but one of the run's own chunks. */
  lemma OthersSpare(s: System, a: Action, t: TenantId, id: RunId)
    requires Inv(s) && Spares(s, a, t, id) && !(a.Executing? && a.t == t && a.id == id)
    ensures SameParts(StoreOf(Advance(s, a), t), StoreOf(s, t), YearOf(s, id))
  {
    hide Inv, SameParts, ExecuteChunk, Next, SparesLastYear, YearOf, HarmlessRun;
    SameSelf(StoreOf(s, t), YearOf(s, id));
    match a {
      case Leave(u, e) => LeaveSpares(s, u, e, t, YearOf(s, id));
      case Executing(u, r, no) => OtherChunkSpares(s, u, r, no, t, YearOf(s, id));
      case _ => NoData(s, a, t);
    }
  }

  lemma NoData(s: System, a: Action, t: TenantId)
    requires Inv(s) && !a.Leave? && !a.Executing?
    ensures StoreOf(Advance(s, a), t) == StoreOf(s, t)
  {
    hide Inv, Advance;
    OnlyCommitsTouchData(s, a);
  }

  lemma LeaveSpares(s: System, u: TenantId, e: Event, t: TenantId, year: int)
    requires u == t ==> SparesLastYear(LedgerOf(s, t), e, year)
    ensures SameParts(StoreOf(Advance(s, Leave(u, e)), t), StoreOf(s, t), year)
  {
    hide SameParts, Next, SparesLastYear;
    SameSelf(StoreOf(s, t), year);
    if u == t { EventSpares(LedgerOf(s, t), e, year); }
  }

  lemma OtherChunkSpares(s: System, u: TenantId, r: RunId, no: nat, t: TenantId, year: int)
    requires u == t && RunIn(s, t, r, Running) ==> HarmlessRun(s.runs[r], year)
    ensures SameParts(StoreOf(ExecuteChunk(s, u, r, no), t), StoreOf(s, t), year)
  {
    hide SameParts, RunChunk, Year, ChunkSucceeded;
    var st := StoreOf(s, t);
    SameSelf(st, year);
    if ChunkIn(s, u, r, no) && RunIn(s, t, r, Running) && u == t && !s.runs[r].dryRun {
      var run := s.runs[r];
      ExpirySpares(st, run.asOf, run.chunks[no - 1].range.first, run.chunks[no - 1].range.last, year);
    }
  }

  /** What the run has done so far to the accrual parts it started from. */
  ghost predicate Tracks(s: System, t: TenantId, id: RunId, run0: Run, base: Store) {
    && id in s.runs && SameRun(s.runs[id], run0) && run0.tenant == t && run0.job.AccrualJob? && !run0.dryRun
    && KnowsPlan(s.runs[id], base)
    && PartlyAccrued(StoreOf(s, t), base, run0.asOf, DoneKeys(AccrualJob, base, run0.asOf, s.runs[id].chunks))
  }

  lemma StartTracks(s: System, t: TenantId, id: RunId, planFails: bool, run0: Run, base: Store)
    requires Inv(s) && Tracks(s, t, id, run0, base)
    ensures Tracks(StartRun(s, t, id, planFails), t, id, run0, base)
  {
    hide Plan, Inv, ChunkTasks, RowIs, RangeKeys, RunOk;
    RunIsOk(s, id);
    if RunIn(s, t, id, Queued) {
      NoChunksYet(s.runs[id]);
      var run' := Started(s.runs[id], Plan(base.employees, run0.asOf));
      assert DoneKeys(AccrualJob, base, run0.asOf, run'.chunks) ==
             DoneKeys(AccrualJob, base, run0.asOf, s.runs[id].chunks);
    }
  }

  lemma NoChunksYet(run: Run)
    requires RunOk(run) && run.status.Queued?
    ensures run.chunks == []
  {}

  lemma ExecutionTracks(s: System, t: TenantId, id: RunId, no: nat, run0: Run, base: Store)
    requires Inv(s) && Tracks(s, t, id, run0, base)
    ensures Tracks(ExecuteChunk(s, t, id, no), t, id, run0, base)
  {
    hide Plan, RangeKeys, Inv, DoneKeys, PartlyAccrued, RunChunk;
    if ChunkIn(s, t, id, no) && s.runs[id].status.Running? {
      var run, r := s.runs[id], s.runs[id].chunks[no - 1].range;
      var (st, counts) := RunChunk(AccrualJob, StoreOf(s, t), run.asOf, r.first, r.last);
      OthersApart(run, no, base);
      ChunkGoesOn(StoreOf(s, t), base, run.asOf, DoneKeys(AccrualJob, base, run.asOf, run.chunks), r);
      DoneKeysAdd(AccrualJob, base, run.asOf, run.chunks, no - 1, ChunkSucceeded(run, no, counts).chunks[no - 1]);
    }
  }

  lemma OtherStepTracks(s: System, a: Action, t: TenantId, id: RunId, run0: Run, base: Store)
    requires Inv(s) && Tracks(s, t, id, run0, base) && Spares(s, a, t, id) && !a.Executing?
             && !(a.Starting? && a.id == id)
    ensures Tracks(Advance(s, a), t, id, run0, base)
  {
    hide Inv, RunKept, NoNewDone, KnowsPlan, PartlyAccrued, RetryRun, Advance, LedgerOf, SameParts, Spares;
    if a.Retrying? { KeptByRetry(s, a.t, a.id, id); } else { KeptByOthers(s, a, id); }
    RetryIs(s, a);
    var run, run' := s.runs[id], Advance(s, a).runs[id];
    if run.chunks == [] { EmptyRunStays(s, a, id); } else { KeptLength(run, run'); }
    PlanStays(run, run', base);
    OthersSpare(s, a, t, id);
    TrafficGoesOn(StoreOf(Advance(s, a), t), StoreOf(s, t), base, run0.asOf,
                  DoneKeys(AccrualJob, base, run0.asOf, run.chunks));
  }

  /** The run itself is not touched. */
  lemma ElsewhereTracks(s: System, a: Action, t: TenantId, id: RunId, run0: Run, base: Store)
    requires Inv(s) && Tracks(s, t, id, run0, base) && Spares(s, a, t, id) && !(a.Executing? && a.t == t && a.id == id)
    requires id in Advance(s, a).runs && Advance(s, a).runs[id] == s.runs[id]
    ensures Tracks(Advance(s, a), t, id, run0, base)
  {
    hide Inv, KnowsPlan, PartlyAccrued, Advance, LedgerOf, SameParts, Spares;
    OthersSpare(s, a, t, id);
    TrafficGoesOn(StoreOf(Advance(s, a), t), StoreOf(s, t), base, run0.asOf,
                  DoneKeys(AccrualJob, base, run0.asOf, s.runs[id].chunks));
  }

  lemma StepTracks(s: System, a: Action, t: TenantId, id: RunId, run0: Run, base: Store)
    requires Inv(s) && Tracks(s, t, id, run0, base) && Spares(s, a, t, id)
    ensures Tracks(Advance(s, a), t, id, run0, base)
  {
    hide Inv, KnowsPlan, PartlyAccrued, ExecuteChunk, StartRun, LedgerOf, Spares;
    match a {
      case Executing(u, r, no) =>
        if r == id && u == t { ExecutionTracks(s, t, id, no, run0, base); }
        else {
          ForeignExecution(s, u, r, no, t, id);
          ElsewhereTracks(s, a, t, id, run0, base);
        }
      case Starting(u, r, planFails) =>
        if r == id && u == t { StartTracks(s, t, id, planFails, run0, base); }
        else if r == id { StartElsewhere(s, u, id, planFails); }
        else { OtherStepTracks(s, a, t, id, run0, base); }
      case _ => OtherStepTracks(s, a, t, id, run0, base);
    }
  }

  lemma QueuedTracks(s: System, t: TenantId, id: RunId)
    requires Inv(s) && RunIn(s, t, id, Queued) && s.runs[id].job.AccrualJob? && !s.runs[id].dryRun
    ensures Tracks(s, t, id, s.runs[id], StoreOf(s, t))
  {
    hide Plan, Inv, RangeKeys, RunOk, PartlyAccrued;
    RunIsOk(s, id);
    NoChunksYet(s.runs[id]);
    assert DoneKeys(AccrualJob, StoreOf(s, t), s.runs[id].asOf, []) == {};
    NothingAccrued(StoreOf(s, t), s.runs[id].asOf);
  }

  /** From a queued run on, however long the protocol runs and whatever traffic goes on beside it. */
  lemma {:induction false} AlwaysTracks(s: System, actions: seq<Action>, t: TenantId, id: RunId)
    requires Inv(s) && RunIn(s, t, id, Queued) && s.runs[id].job.AccrualJob? && !s.runs[id].dryRun
    requires SparesThroughout(s, actions, t, id)
    ensures Inv(Reach(s, actions)) && Tracks(Reach(s, actions), t, id, s.runs[id], StoreOf(s, t))
  {
    hide Inv, Tracks, Advance, Spares;
    if actions == [] {
      QueuedTracks(s, t, id);
    } else {
      var before, a := actions[..|actions| - 1], actions[|actions| - 1];
      AlwaysTracks(s, before, t, id);
      StepKeeps(Reach(s, before), a);
      StepTracks(Reach(s, before), a, t, id, s.runs[id], StoreOf(s, t));
    }
  }

  /** A real accrual run that succeeds has accrued for every employee of its start what one pass at its start would
      have: every row that pass makes is there, with its entitlement and carry-over, and other rows keep theirs. */
  lemma AccrualUnderTraffic(s: System, actions: seq<Action>, t: TenantId, id: RunId, hi: EmpId)
    requires Inv(s) && RunIn(s, t, id, Queued) && s.runs[id].job.AccrualJob? && !s.runs[id].dryRun
    requires SparesThroughout(s, actions, t, id)
    requires AllUpTo(StoreOf(s, t).employees, hi)
    requires RunIn(Reach(s, actions), t, id, Succeeded)
    ensures var base, asOf, end := StoreOf(s, t), s.runs[id].asOf, StoreOf(Reach(s, actions), t);
            var once := RunChunk(AccrualJob, base, asOf, 0, hi).0;
            && SameConfig(end, base) && SameConfig(once, base)
            && ChunkKeys(AccrualJob, base, asOf, 0, hi) <= end.balances.Keys
            && forall k: Key :: k.year == Year(asOf) && k.emp in base.employees ==> PartAt(end, k) == PartAt(once, k)
  {
    hide Inv, RunOk, KnowsPlan, PartlyAccrued, ChunkKeys, Year, PlannedKeys, DoneKeys, RunChunk, AllUpTo, HistoriesOk;
    var base, run := StoreOf(s, t), Reach(s, actions).runs[id];
    AlwaysTracks(s, actions, t, id);
    RunIsOk(Reach(s, actions), id);
    AllDone(run, base);
    HistoriesAreOk(s, t);
    PlannedIsAll(base, run.asOf, hi);
    OnePassMade(StoreOf(Reach(s, actions), t), base, run.asOf, hi);
  }

  lemma OnePassMade(end: Store, base: Store, asOf: Date, hi: EmpId)
    requires PartlyAccrued(end, base, asOf, ChunkKeys(AccrualJob, base, asOf, 0, hi))
    ensures var once := RunChunk(AccrualJob, base, asOf, 0, hi).0;
            && SameConfig(end, base) && SameConfig(once, base)
            && ChunkKeys(AccrualJob, base, asOf, 0, hi) <= end.balances.Keys
            && forall k: Key :: k.year == Year(asOf) && k.emp in base.employees ==> PartAt(end, k) == PartAt(once, k)
  {
    hide RunChunk, ChunkKeys, RowIs, PartAt, Year;
    var once, keys := RunChunk(AccrualJob, base, asOf, 0, hi).0, ChunkKeys(AccrualJob, base, asOf, 0, hi);
    RunChunkRow(AccrualJob, base, asOf, 0, hi, Key(0, 0, 0));
    forall k: Key
      ensures k in keys ==> k in end.balances
      ensures k.year == Year(asOf) && k.emp in base.employees ==> PartAt(end, k) == PartAt(once, k)
    {
      RunChunkRow(AccrualJob, base, asOf, 0, hi, k);
      assert RowIs(end, base, asOf, keys, k);
      OnePassRow(end, once, base, asOf, keys, k);
    }
  }

  lemma OnePassRow(end: Store, once: Store, base: Store, asOf: Date, keys: set<Key>, k: Key)
    requires SameConfig(end, base) && SameConfig(once, base) && RowIs(end, base, asOf, keys, k)
    requires k in keys ==> CanApply(AccrualJob, base, k)
    requires Lookup(once, k) == if k in keys then Some(Effect(AccrualJob, base, asOf, k)) else Lookup(base, k)
    ensures k in keys ==> k in end.balances
    ensures k.year == Year(asOf) && k.emp in base.employees ==> PartAt(end, k) == PartAt(once, k)
  {
    hide Effect, Year, BasePolicy, AccrualPart;
    if k.emp in base.employees { PartDepends(once, base, k); }
  }
}
