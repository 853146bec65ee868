/** The org units and employees of one tenant, written one transaction after another
    (backend/app/services/org_units.py, backend/app/services/employees.py). */
module CoreHr {
  import opened Common
  import opened Calendar
  import opened JobHistory
  import opened OrgTree

  /** Number, name and work address of an employee. */
  datatype Card = Card(number: string, name: string, email: Option<string>)

  datatype Hr = Hr(units: Units, employees: map<EmpId, Employee>, cards: map<EmpId, Card>)

  const NOBODY := Hr(map[], map[], map[])

  datatype Hiring = Hiring(card: Card, hireDate: Date, title: string, grade: string, unit: UnitId,
                           supervisor: Option<EmpId>, etype: EmploymentType)

  /** A missing field stays as it is; the address can also be cleared. */
  datatype CardUpdate = CardUpdate(email: Option<Option<string>>, name: Option<string>)

  predicate NumberInUse(cards: map<EmpId, Card>, number: string) {
    exists id :: id in cards && cards[id].number == number
  }

  predicate EmailInUse(cards: map<EmpId, Card>, email: Option<string>, except: Option<EmpId>) {
    email.Some? && exists id :: id in cards && Some(id) != except && cards[id].email == email
  }

  function ActiveUnits(units: Units): set<UnitId> { set u | u in units && units[u].active }

  /** `create_employee` with a fresh id. */
  function NewEmployee(hr: Hr, id: EmpId, h: Hiring): Result<Employee, HistoryError>
    requires id !in hr.employees
  {
    if NumberInUse(hr.cards, h.card.number) then Err(NumberTaken)
    else if EmailInUse(hr.cards, h.card.email, None) then Err(EmailTaken)
    else if !IsActiveUnit(hr.units, h.unit) then Err(OrgUnitInvalid)
    else if h.supervisor.Some? && h.supervisor.value !in hr.employees then Err(EmployeeInvalid)
    else Ok(Employee(h.hireDate, [FirstJob(h.hireDate, h.title, h.grade, h.unit, h.supervisor, h.etype)]))
  }

  /** `update_employee`: the card with the fields set. */
  function NewCard(hr: Hr, id: EmpId, data: CardUpdate): Result<Card, HistoryError> {
    if id !in hr.cards then Err(EmployeeNotFound)
    else if data.email.Some? && EmailInUse(hr.cards, data.email.value, Some(id)) then Err(EmailTaken)
    else
      var card := hr.cards[id];
      Ok(card.(email := if data.email.Some? then data.email.value else card.email,
               name := if data.name.Some? then data.name.value else card.name))
  }

  /** `add_job`: the employee with one row more. */
  function WithJob(hr: Hr, id: EmpId, input: JobInput): Result<Employee, HistoryError> {
    if id !in hr.employees then Err(EmployeeNotFound)
    else
      var e := hr.employees[id];
      var row := NewJob(id, e, input, ActiveUnits(hr.units), hr.employees.Keys);
      if row.Err? then Err(row.error) else Ok(e.(jobs := e.jobs + [row.value]))
  }

  datatype HrEvent =
    | CreatingUnit(u: UnitId, code: string, name: string, parent: Option<UnitId>, manager: Option<EmpId>)
    | UpdatingUnit(u: UnitId, data: UnitUpdate)
    | HiringOne(id: EmpId, hiring: Hiring)
    | AddingJob(id: EmpId, input: JobInput)
    | UpdatingCard(id: EmpId, update: CardUpdate)

  function WithUnits(hr: Hr, r: Result<Units, UnitError>): Hr { if r.Ok? then hr.(units := r.value) else hr }

  function WithEmployee(hr: Hr, id: EmpId, r: Result<Employee, HistoryError>): Hr {
    if r.Ok? then hr.(employees := hr.employees[id := r.value]) else hr
  }

  function WithHire(hr: Hr, id: EmpId, h: Hiring): Hr
    requires id !in hr.employees
  {
    var r := NewEmployee(hr, id, h);
    if r.Ok? then hr.(employees := hr.employees[id := r.value], cards := hr.cards[id := h.card]) else hr
  }

  function WithCard(hr: Hr, id: EmpId, r: Result<Card, HistoryError>): Hr {
    if r.Ok? then hr.(cards := hr.cards[id := r.value]) else hr
  }

  ghost function NextHr(hr: Hr, e: HrEvent): Hr {
    match e
    case CreatingUnit(u, code, name, parent, manager) =>
      if u in hr.units then hr
      else WithUnits(hr, OrgTree.CreateUnit(hr.units, hr.employees.Keys, u, code, name, parent, manager))
    case UpdatingUnit(u, data) => WithUnits(hr, OrgTree.UpdateUnit(hr.units, hr.employees.Keys, u, data))
    case HiringOne(id, h) => if id in hr.employees then hr else WithHire(hr, id, h)
    case AddingJob(id, input) => WithEmployee(hr, id, WithJob(hr, id, input))
    case UpdatingCard(id, data) => WithCard(hr, id, NewCard(hr, id, data))
  }

  ghost function AfterAll(events: seq<HrEvent>): Hr {
    if events == [] then NOBODY else NextHr(AfterAll(events[..|events| - 1]), events[|events| - 1])
  }

  // ---- what every sequence of transactions keeps ----

  /** The rows refer to units and employees there are, and nobody supervises himself. */
  predicate RowsOk(hr: Hr, id: EmpId, rows: seq<JobRow>) {
    forall i :: 0 <= i < |rows| ==>
      && rows[i].unit in hr.units
      && (rows[i].supervisor.Some? ==> rows[i].supervisor.value in hr.employees && rows[i].supervisor.value != id)
  }

  ghost predicate EmployeesOk(hr: Hr) {
    forall id :: id in hr.employees ==> HistoryOk(hr.employees[id]) && RowsOk(hr, id, hr.employees[id].jobs)
  }

  predicate ManagersExist(hr: Hr) {
    forall u :: u in hr.units && hr.units[u].manager.Some? ==> hr.units[u].manager.value in hr.employees
  }

  /** Everybody has a card, and no two the same number or address. */
  predicate CardsOk(hr: Hr) {
    && hr.cards.Keys == hr.employees.Keys
    && (forall a, b :: a in hr.cards && b in hr.cards && a != b ==>
         && hr.cards[a].number != hr.cards[b].number
         && (hr.cards[a].email.Some? ==> hr.cards[a].email != hr.cards[b].email))
  }

  ghost predicate HrOk(hr: Hr) { TreeOk(hr.units) && EmployeesOk(hr) && ManagersExist(hr) && CardsOk(hr) }

  lemma NewHistoryIsOk(h: Hiring)
    ensures HistoryOk(Employee(h.hireDate, [FirstJob(h.hireDate, h.title, h.grade, h.unit, h.supervisor, h.etype)]))
  {}

  lemma HireKeepsCards(hr: Hr, id: EmpId, h: Hiring)
    requires CardsOk(hr) && id !in hr.employees
    ensures CardsOk(WithHire(hr, id, h))
  {}

  lemma HireKeeps(hr: Hr, id: EmpId, h: Hiring)
    requires HrOk(hr) && id !in hr.employees
    ensures HrOk(WithHire(hr, id, h))
  {
    hide TreeOk, HistoryOk, CardsOk;
    NewHistoryIsOk(h);
    HireKeepsCards(hr, id, h);
  }

  lemma CardKeeps(hr: Hr, id: EmpId, data: CardUpdate)
    requires HrOk(hr)
    ensures HrOk(WithCard(hr, id, NewCard(hr, id, data)))
  {
    hide TreeOk, HistoryOk;
  }

  lemma AddJobRowOk(hr: Hr, id: EmpId, input: JobInput)
    requires EmployeesOk(hr) && WithJob(hr, id, input).Ok?
    ensures RowsOk(hr, id, WithJob(hr, id, input).value.jobs)
  {
    hide HistoryOk;
    JobAsOfIsLatest(hr.employees[id].jobs, input.effdt);
  }

  lemma AddJobKeeps(hr: Hr, id: EmpId, input: JobInput)
    requires HrOk(hr)
    ensures HrOk(WithEmployee(hr, id, WithJob(hr, id, input)))
  {
    hide TreeOk, NewJob, HistoryOk;
    if WithJob(hr, id, input).Ok? {
      AddJobKeepsHistory(id, hr.employees[id], input, ActiveUnits(hr.units), hr.employees.Keys);
      AddJobRowOk(hr, id, input);
    }
  }

  lemma UnitsKeep(hr: Hr, e: HrEvent)
    requires HrOk(hr) && (e.CreatingUnit? || e.UpdatingUnit?)
    ensures HrOk(NextHr(hr, e))
  {
    hide TreeOk, HistoryOk, IsAncestor, HasActiveChild, CodeIsTaken;
    match e {
      case CreatingUnit(u, code, name, parent, manager) =>
        if u !in hr.units && OrgTree.CreateUnit(hr.units, hr.employees.Keys, u, code, name, parent, manager).Ok? {
          CreateKeepsTree(hr.units, hr.employees.Keys, u, code, name, parent, manager);
        }
      case UpdatingUnit(u, data) =>
        if OrgTree.UpdateUnit(hr.units, hr.employees.Keys, u, data).Ok? {
          UpdateKeepsTree(hr.units, hr.employees.Keys, u, data);
        }
    }
  }

  /** After any serial sequence of creates, moves, hires and job changes the units are a forest with distinct
      codes, every history is well formed, and every reference leads somewhere. */
  lemma {:induction false} AlwaysHrOk(events: seq<HrEvent>)
    ensures HrOk(AfterAll(events))
  {
    hide HrOk, NewEmployee, WithJob, NewCard, WithHire;
    if events == [] {
      NothingIsOk();
    } else {
      var before, e := AfterAll(events[..|events| - 1]), events[|events| - 1];
      AlwaysHrOk(events[..|events| - 1]);
      match e {
        case HiringOne(id, h) => if id !in before.employees { HireKeeps(before, id, h); }
        case AddingJob(id, input) => AddJobKeeps(before, id, input);
        case UpdatingCard(id, data) => CardKeeps(before, id, data);
        case _ => UnitsKeep(before, e);
      }
    }
  }

  lemma NothingIsOk()
    ensures HrOk(NOBODY)
  {}

  // ---- the service ----

  class Service {
    var units: Units
    var employees: map<EmpId, Employee>
    var cards: map<EmpId, Card>

    function State(): Hr
      reads this
    {
      Hr(units, employees, cards)
    }

    constructor ()
      ensures State() == NOBODY
    {
      units, employees, cards := map[], map[], map[];
    }

    method CreateUnit(u: UnitId, code: string, name: string, parent: Option<UnitId>, manager: Option<EmpId>)
    returns (r: Option<UnitError>)
      requires u !in units
      modifies this`units
      ensures var spec := OrgTree.CreateUnit(old(units), employees.Keys, u, code, name, parent, manager);
              if spec.Ok? then r.None? && units == spec.value else r == Some(spec.error) && units == old(units)
    {
      if CodeIsTaken(units, code) { return Some(CodeTaken); }
      if parent.Some? && !IsActiveUnit(units, parent.value) { return Some(ParentInvalid); }
      if manager.Some? && manager.value !in employees { return Some(ManagerInvalid); }
      units := units[u := Unit(code, name, parent, manager, true)];
      return None;
    }

    /** Field after field; an error leaves the row as it was. */
    method UpdateUnit(u: UnitId, data: UnitUpdate) returns (r: Option<UnitError>)
      modifies this`units
      ensures var spec := OrgTree.UpdateUnit(old(units), employees.Keys, u, data);
              if spec.Ok? then r.None? && units == spec.value else r == Some(spec.error) && units == old(units)
    {
      hide IsAncestor;
      if u !in units { return Some(UnitNotFound); }
      var unit := units[u];
      if data.name.Some? { unit := unit.(name := data.name.value); }
      if data.parent.Some? {
        if data.parent.value.Some? {
          if !IsActiveUnit(units, data.parent.value.value) { return Some(ParentInvalid); }
          var above := Ancestors(units, data.parent.value.value);
          if u in above { return Some(UnitCycle); }
        }
        unit := unit.(parent := data.parent.value);
      }
      if data.manager.Some? {
        if data.manager.value.Some? && data.manager.value.value !in employees { return Some(ManagerInvalid); }
        unit := unit.(manager := data.manager.value);
      }
      if data.active.Some? {
        var hasActiveChild := exists c :: c in units && units[c].parent == Some(u) && units[c].active;
        if !data.active.value && hasActiveChild { return Some(HasActiveChildren); }
        unit := unit.(active := data.active.value);
      }
      units := units[u := unit];
      return None;
    }

    method CreateEmployee(id: EmpId, h: Hiring) returns (r: Option<HistoryError>)
      requires id !in employees
      modifies this`employees, this`cards
      ensures State() == WithHire(old(State()), id, h)
      ensures r == var spec := NewEmployee(old(State()), id, h); if spec.Ok? then None else Some(spec.error)
    {
      if NumberInUse(cards, h.card.number) { return Some(NumberTaken); }
      if EmailInUse(cards, h.card.email, None) { return Some(EmailTaken); }
      if !IsActiveUnit(units, h.unit) { return Some(OrgUnitInvalid); }
      if h.supervisor.Some? && h.supervisor.value !in employees { return Some(EmployeeInvalid); }
      var job := FirstJob(h.hireDate, h.title, h.grade, h.unit, h.supervisor, h.etype);
      employees := employees[id := Employee(h.hireDate, [job])];
      cards := cards[id := h.card];
      return None;
    }

    method UpdateEmployee(id: EmpId, data: CardUpdate) returns (r: Option<HistoryError>)
      modifies this`cards
      ensures State() == WithCard(old(State()), id, NewCard(old(State()), id, data))
      ensures r == var spec := NewCard(old(State()), id, data); if spec.Ok? then None else Some(spec.error)
    {
      if id !in cards { return Some(EmployeeNotFound); }
      var card := cards[id];
      if data.email.Some? {
        if EmailInUse(cards, data.email.value, Some(id)) { return Some(EmailTaken); }
        card := card.(email := data.email.value);
      }
      if data.name.Some? { card := card.(name := data.name.value); }
      cards := cards[id := card];
      return None;
    }

    /** The new row goes after the rows there are; none of those changes. */
    method AddJob(id: EmpId, input: JobInput) returns (r: Option<HistoryError>)
      modifies this`employees
      ensures State() == WithEmployee(old(State()), id, WithJob(old(State()), id, input))
      ensures r == var spec := WithJob(old(State()), id, input); if spec.Ok? then None else Some(spec.error)
    {
      hide JobAsOf, LastSeq, MaxEffdt;
      if id !in employees { return Some(EmployeeNotFound); }
      var e := employees[id];
      var dateError := CheckDate(input, e.hireDate, MaxEffdt(e.jobs));
      if dateError.Some? { return dateError; }
      var previous := JobAsOf(e.jobs, input.effdt);
      if previous.None? { return Some(NoInitialRow); }
      var p := previous.value;
      var transition := CheckTransition(input.action, p.status);
      if transition.Some? { return transition; }
      var unit := p.unit;
      if input.unit.Some? {
        unit := input.unit.value;
        if !IsActiveUnit(units, unit) { return Some(OrgUnitInvalid); }
      }
      var supervisor := if input.supervisor.Some? then input.supervisor.value else p.supervisor;
      if supervisor == Some(id) { return Some(OwnSupervisor); }
      if supervisor.Some? && supervisor != p.supervisor && supervisor.value !in employees {
        return Some(EmployeeInvalid);
      }
      var lastSeq := LastSeq(e.jobs, input.effdt);
      var title := if input.title.Some? && input.title.value != "" then input.title.value else p.title;
      var grade := if input.grade.Some? && input.grade.value != "" then input.grade.value else p.grade;
      var job := JobRow(input.effdt, if lastSeq.None? then 0 else lastSeq.value + 1, input.action, title, grade, unit,
                        supervisor, if input.etype.Some? then input.etype.value else p.etype, StatusFor(input.action));
      employees := employees[id := e.(jobs := e.jobs + [job])];
      return None;
    }
  }
}
