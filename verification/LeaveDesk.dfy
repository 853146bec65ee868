/** The leave service over its tables: each public method is one transaction, proved to take the ledger
    to the one its function in `LeaveLedger` describes. */
module LeaveDesk {
  import opened Common
  import opened Calendar
  import opened LeaveRules
  import opened JobHistory
  import opened LeaveAccrual
  import opened LeaveLedger

  class Desk {
    var employees: map<EmpId, Employee>
    var types: map<TypeId, LeaveType>
    var policies: seq<Policy>
    var balances: map<Key, Balance>
    var holidays: set<Date>
    var requests: seq<Request>

    function Tables(): Store
      reads this
    {
      Store(employees, types, policies, balances)
    }

    function State(): Ledger
      reads this
    {
      Ledger(Tables(), holidays, requests)
    }

    constructor ()
      ensures State() == EMPTY
    {
      employees, types, policies, balances, holidays, requests := map[], map[], [], map[], {}, [];
    }

    /** `get_balance` */
    method EnsureBalance(k: Key) returns (found: bool)
      modifies this`balances
      ensures found <==> GetBalance(old(Tables()), k).Some?
      ensures found ==> k in balances && Tables() == GetBalance(old(Tables()), k).value
      ensures !found ==> balances == old(balances)
    {
      hide EntitlementFor;
      if k in balances { return true; }
      if k.emp !in employees { return false; }
      balances := balances[k := NewBalance(EntitlementFor(Tables(), k))];
      return true;
    }

    /** `_evaluate`: collects every violation; the balance row may come into being on the way. */
    method Assess(emp: EmpId, ltype: TypeId, start: Date, end: Date, today: Date)
    returns (r: Result<(nat, seq<Violation>), Error>)
      modifies this`balances
      ensures var ev := Evaluate(old(State()), emp, ltype, start, end, today);
              if ev.Ok? then r == Ok((ev.value.days, ev.value.errors)) && Tables() == ev.value.store
              else r == Err(ev.error) && Tables() == old(Tables())
    {
      hide Year, GetBalance, Workdays, RequestErrors, CheckRange;
      if ltype !in types { return Err(NotFound); }
      var t := types[ltype];
      var errors := [];
      if !t.active { errors := errors + [LeaveTypeInactive]; }
      assert errors == When(!t.active, LeaveTypeInactive);
      var range := CheckRange(start, end);
      if range.Some? { return Ok((0, errors + [range.value])); }
      var days := WorkingDays(start, end, holidays);
      var more := Violations(emp, t, start, end, today, days);
      errors := errors + more;
      if t.requiresBalance {
        var k := Key(emp, ltype, Year(start));
        var found := EnsureBalance(k);
        if !found { return Err(NotFound); }
        var short := [];
        if days > balances[k].Available() { short := [InsufficientBalance]; }
        errors := errors + short;
      }
      return Ok((days, errors));
    }

    /** The checks of `_evaluate` that need no balance, in its order. */
    method Violations(emp: EmpId, t: LeaveType, start: Date, end: Date, today: Date, days: nat)
    returns (errors: seq<Violation>)
      ensures errors == RequestErrors(State(), emp, t, start, end, today, days)
    {
      hide IsActiveAt, CheckNotice, HasOverlap;
      errors := [];
      if days <= 0 { errors := errors + [NoWorkingDays]; }
      if emp !in employees || !IsActiveAt(employees[emp], start) { errors := errors + [EmployeeNotActive]; }
      var notice := CheckNotice(start, today, t.minNotice, t.allowBackdated);
      if notice.Some? { errors := errors + [notice.value]; }
      if t.maxDays.Some? && days > t.maxDays.value { errors := errors + [ExceedsMaxDays]; }
      if HasOverlap(requests, emp, start, end) { errors := errors + [OverlappingRequest]; }
    }

    /** `_approver_chain` */
    method ChainOf(emp: EmpId, levels: nat, asOf: Date) returns (chain: seq<Option<EmpId>>)
      ensures chain == ApproverChain(employees, Some(emp), levels, asOf)
    {
      hide JobAsOf;
      chain := [];
      var current := Some(emp);
      for i := 0 to levels
        invariant chain + ApproverChain(employees, current, levels - i, asOf) ==
                  ApproverChain(employees, Some(emp), levels, asOf)
      {
        var job: Option<JobRow> := None;
        if current.Some? && current.value in employees {
          job := JobAsOf(employees[current.value].jobs, asOf);
        }
        if job.Some? { current := job.value.supervisor; } else { current := None; }
        chain := chain + [current];
      }
    }

    method Submit(actor: Actor, ltype: TypeId, start: Date, end: Date, key: Option<string>, today: Date)
    returns (r: Result<nat, Error>)
      modifies this
      ensures Outcome(r, State()) == LeaveLedger.Submit(old(State()), actor, ltype, start, end, key, today)
    {
      hide Evaluate, ApproverChain, OpenSteps, FindKey, InsertRejected, Year;
      if actor.emp.None? { return Err(NoProfile); }
      var emp := actor.emp.value;
      if key.Some? && key.value != "" {
        var existing := FindKey(requests, emp, key);
        if existing.Some? { return Ok(existing.value); }
      }
      var snapshot := balances;
      var evaluation := Assess(emp, ltype, start, end, today);
      if evaluation.Err? { return Err(evaluation.error); }
      var (days, errors) := evaluation.value;
      if errors != [] {
        balances := snapshot;
        return Err(Rule(errors[0]));
      }
      EvaluatedType(old(State()), emp, ltype, start, end, today);
      var t := types[ltype];
      var approvers := ChainOf(emp, t.levels, today);
      var request := Request(emp, ltype, start, end, days, Pending, t.levels, 1, OpenSteps(approvers), key);
      if InsertRejected(requests, request) {
        balances := snapshot;
        return Err(OverlapConflict);
      }
      if t.requiresBalance {
        var k := KeyOf(request);
        balances := balances[k := balances[k].(pending := balances[k].pending + days)];
      }
      requests := requests + [request];
      return Ok(|requests| - 1);
    }

    /** `_release_balance` */
    method ReleaseBalance(q: Request, pending: int, used: int) returns (ok: bool)
      modifies this`balances
      ensures ok <==> Release(old(Tables()), q, pending, used).Some?
      ensures Tables() == if ok then Release(old(Tables()), q, pending, used).value else old(Tables())
    {
      hide GetBalance, Year;
      if q.ltype !in types { return false; }
      if !types[q.ltype].requiresBalance { return true; }
      var k := KeyOf(q);
      var found := EnsureBalance(k);
      if !found { return false; }
      var balance := balances[k];
      balance := balance.(pending := balance.pending + pending);
      balance := balance.(used := balance.used + used);
      balances := balances[k := balance];
      return true;
    }

    method Decide(actor: Actor, id: nat, approve: bool) returns (r: Result<nat, Error>)
      modifies this
      ensures Outcome(r, State()) == LeaveLedger.Decide(old(State()), actor, id, approve)
    {
      hide Release, SkipOpen;
      if id >= |requests| { return Err(NotFound); }
      var request := requests[id];
      var isApprover := 0 < request.level <= |request.steps| && request.steps[request.level - 1].approver.Some?
                        && request.steps[request.level - 1].approver == actor.emp;
      if !(actor.hr || isApprover) {
        if CanView(actor, request) { return Err(NotCurrentApprover); }
        return Err(NotFound);
      }
      if actor.emp.Some? && actor.emp.value == request.emp { return Err(CannotDecideOwn); }
      if !request.status.Pending? { return Err(NotPending); }
      if !(0 < request.level <= |request.steps|) { return Err(NotFound); }
      var i := request.level - 1;
      var days := request.days;
      var before := request;
      var step := request.steps[i].(status := if approve then Granted else Refused, decider := Some(actor));
      request := request.(steps := request.steps[i := step]);
      var ok := true;
      if !approve {
        request := request.(status := Rejected);
        ok := ReleaseBalance(before, -days, 0);
        request := request.(steps := SkipOpen(request.steps));
      } else if request.level < request.levels {
        request := request.(level := request.level + 1);
      } else {
        request := request.(status := Approved);
        ok := ReleaseBalance(before, -days, days);
      }
      if !ok { return Err(NotFound); }
      requests := requests[id := request];
      return Ok(id);
    }

    method Cancel(actor: Actor, id: nat, today: Date) returns (r: Result<nat, Error>)
      modifies this
      ensures Outcome(r, State()) == LeaveLedger.Cancel(old(State()), actor, id, today)
    {
      hide Release, SkipOpen;
      if id >= |requests| { return Err(NotFound); }
      var request := requests[id];
      var isOwner := actor.emp.Some? && actor.emp.value == request.emp;
      if !(isOwner || actor.hr) {
        if CanView(actor, request) { return Err(CannotCancelOthers); }
        return Err(NotFound);
      }
      if !(request.status.Pending? || (request.status.Approved? && request.start > today)) { return Err(CannotCancel); }
      var ok;
      if request.status.Pending? {
        ok := ReleaseBalance(request, -request.days, 0);
      } else {
        ok := ReleaseBalance(request, 0, -request.days);
      }
      if !ok { return Err(NotFound); }
      request := request.(status := Cancelled);
      request := request.(steps := SkipOpen(request.steps));
      requests := requests[id := request];
      return Ok(id);
    }

    method AdjustBalance(k: Key, delta: int) returns (r: Result<nat, Error>)
      modifies this
      ensures Outcome(r, State()) == Adjust(old(State()), k, delta)
    {
      hide GetBalance;
      if k.ltype !in types { return Err(NotFound); }
      if !types[k.ltype].requiresBalance { return Err(WithoutBalance); }
      var snapshot := balances;
      var found := EnsureBalance(k);
      if !found { return Err(NotFound); }
      var balance := balances[k];
      if balance.Available() + delta < 0 {
        balances := snapshot;
        return Err(BalanceNegative);
      }
      balances := balances[k := balance.(adjusted := balance.adjusted + delta)];
      return Ok(0);
    }
  }

  lemma EvaluatedType(l: Ledger, emp: EmpId, ltype: TypeId, start: Date, end: Date, today: Date)
    requires var ev := Evaluate(l, emp, ltype, start, end, today); ev.Ok? && ev.value.errors == []
    ensures ltype in l.store.types
    ensures var st := Evaluate(l, emp, ltype, start, end, today).value.store;
            st == l.store.(balances := st.balances)
            && (l.store.types[ltype].requiresBalance ==> Key(emp, ltype, Year(start)) in st.balances)
  {
    hide IsActiveAt, Year, Workdays, EntitlementFor;
  }
}
