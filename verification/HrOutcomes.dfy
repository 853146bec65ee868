/** What creating and changing units, hiring, and adding to a job history answer and store, field by field. */
module HrOutcomes {
  import opened Common
  import opened Calendar
  import opened JobHistory
  import opened OrgTree
  import opened CoreHr

  // ---- circles, link by link ----

  /** Each unit of the path is the parent of the one before it, and the path ends where it begins. */
  predicate IsCircle(units: Units, path: seq<UnitId>) {
    && |path| >= 2 && path[0] == path[|path| - 1]
    && forall i :: 0 <= i < |path| - 1 ==> path[i] in units && units[path[i]].parent == Some(path[i + 1])
  }

  lemma {:induction false} UpAlong(units: Units, path: seq<UnitId>, n: nat)
    requires ParentsExist(units) && n < |path|
    requires forall i :: 0 <= i < |path| - 1 ==> path[i] in units && units[path[i]].parent == Some(path[i + 1])
    ensures Up(units, Some(path[0]), n) == Some(path[n])
  {
    if n > 0 {
      UpAlong(units, path, n - 1);
      UpOneMore(units, Some(path[0]), n - 1);
      assert units[path[n - 1]].parent == Some(path[n]);
    }
  }

  /** The first units up from one. */
  ghost function Seen(units: Units, u: UnitId, n: nat): set<UnitId> {
    if n == 0 then {} else
      var a := Up(units, Some(u), n - 1);
      Seen(units, u, n - 1) + if a.Some? then {a.value} else {}
  }

  lemma {:induction false} SeenWhere(units: Units, u: UnitId, n: nat, a: UnitId) returns (i: nat)
    requires a in Seen(units, u, n)
    ensures i < n && Up(units, Some(u), i) == Some(a)
  {
    hide Up;
    if Up(units, Some(u), n - 1) == Some(a) { i := n - 1; } else { i := SeenWhere(units, u, n - 1, a); }
  }

  lemma {:induction false} SeenAre(units: Units, u: UnitId, n: nat)
    requires u in units && forall i :: 0 <= i < n ==> Up(units, Some(u), i) != None
    requires forall i, j :: 0 <= i < j < n ==> Up(units, Some(u), i) != Up(units, Some(u), j)
    ensures |Seen(units, u, n)| == n && Seen(units, u, n) <= units.Keys
  {
    hide Up;
    if n > 0 {
      var a := Up(units, Some(u), n - 1);
      SeenAre(units, u, n - 1);
      UpStays(units, u, n - 1);
      if a.value in Seen(units, u, n - 1) {
        var i := SeenWhere(units, u, n - 1, a.value);
        assert false;
      }
      assert Seen(units, u, n) == Seen(units, u, n - 1) + {a.value};
    }
  }

  lemma {:induction false} UpStays(units: Units, u: UnitId, n: nat)
    requires u in units
    ensures var a := Up(units, Some(u), n); a.Some? ==> a.value in units
  {
    if n > 0 {
      UpStays(units, u, n - 1);
      UpOneMore(units, Some(u), n - 1);
    }
  }

  /** Where the links from a unit do not end, they come back. */
  lemma EndlessComesBack(units: Units, u: UnitId)
    requires u in units && !Rooted(units, u)
    ensures exists i: nat, j: nat :: i < j && Up(units, Some(u), i) == Up(units, Some(u), j)
  {
    hide Up, Seen;
    var n := |units| + 1;
    assert forall i: nat :: Up(units, Some(u), i) != None;
    if forall i, j :: 0 <= i < j < n ==> Up(units, Some(u), i) != Up(units, Some(u), j) {
      SeenAre(units, u, n);
      SubsetCard(Seen(units, u, n), units.Keys);
    }
  }

  lemma ComingBackIsCircle(units: Units, u: UnitId, i: nat, j: nat)
    requires u in units && !Rooted(units, u) && i < j && Up(units, Some(u), i) == Up(units, Some(u), j)
    ensures exists path :: IsCircle(units, path)
  {
    hide Up;
    forall n: nat ensures Up(units, Some(u), n).Some? { assert Up(units, Some(u), n) != None; }
    var path := seq(j - i + 1, n requires 0 <= n => Up(units, Some(u), i + n).value);
    forall n | 0 <= n < |path| - 1 ensures path[n] in units && units[path[n]].parent == Some(path[n + 1]) {
      UpStays(units, u, i + n);
      UpOneMore(units, Some(u), i + n);
    }
    assert IsCircle(units, path);
  }

  /** A forest is what has no circle. */
  lemma ForestIffNoCircle(units: Units)
    requires ParentsExist(units)
    ensures IsForest(units) <==> !exists path :: IsCircle(units, path)
  {
    hide Up, Rooted;
    if IsForest(units) {
      if path :| IsCircle(units, path) {
        UpAlong(units, path, |path| - 1);
        ForestHasNoCycle(units, path[0], |path| - 1);
      }
    } else {
      var u :| u in units && !Rooted(units, u);
      EndlessComesBack(units, u);
      var i: nat, j: nat :| i < j && Up(units, Some(u), i) == Up(units, Some(u), j);
      ComingBackIsCircle(units, u, i, j);
    }
  }

  // ---- units ----

  /** A new unit is refused a code in use, a parent that is not active or a manager who is not there; it is then as
      asked for, and active. */
  lemma CreateUnitAnswers(units: Units, employees: set<EmpId>, u: UnitId, code: string, name: string,
                          parent: Option<UnitId>, manager: Option<EmpId>)
    requires u !in units
    ensures OrgTree.CreateUnit(units, employees, u, code, name, parent, manager) ==
            if exists v :: v in units && units[v].code == code then Err(CodeTaken)
            else if parent.Some? && !(parent.value in units && units[parent.value].active) then Err(ParentInvalid)
            else if manager.Some? && manager.value !in employees then Err(ManagerInvalid)
            else Ok(units[u := Unit(code, name, parent, manager, true)])
  {}

  /** The parent an update sets, if it sets one. */
  function NewParent(data: UnitUpdate): Option<UnitId> { if data.parent.Some? then data.parent.value else None }

  /** An update is refused, in this order, for a unit that is not there, a parent that is not active or below the unit,
      so that the move would close a circle, a manager who is not there, and for closing a unit with an active one
      below it; it then sets what it names and nothing else. */
  lemma UpdateUnitAnswers(units: Units, employees: set<EmpId>, u: UnitId, data: UnitUpdate)
    requires TreeOk(units)
    ensures var r, p := OrgTree.UpdateUnit(units, employees, u, data), NewParent(data);
            var activeBelow := exists c :: c in units && units[c].parent == Some(u) && units[c].active;
            if u !in units then r == Err(UnitNotFound)
            else if p.Some? && !(p.value in units && units[p.value].active) then r == Err(ParentInvalid)
            else if p.Some? && exists path :: IsCircle(Moved(units, u, p), path) then r == Err(UnitCycle)
            else if data.manager.Some? && data.manager.value.Some? && data.manager.value.value !in employees then
              r == Err(ManagerInvalid)
            else if data.active == Some(false) && activeBelow then r == Err(HasActiveChildren)
            else
              r.Ok? && r.value.Keys == units.Keys && (forall v :: v in units && v != u ==> r.value[v] == units[v])
              && Follows(units[u], r.value[u], data)
  {
    hide IsForest, IsAncestor, IsCircle, CodesDiffer;
    var p := NewParent(data);
    if u in units && p.Some? && p.value in units {
      CycleCheckExact(units, u, p.value);
      ForestIffNoCircle(Moved(units, u, p));
    }
  }

  predicate Follows(unit: Unit, unit': Unit, data: UnitUpdate) {
    && unit'.code == unit.code
    && (if data.name.Some? then Some(unit'.name) == data.name else unit'.name == unit.name)
    && (if data.parent.Some? then Some(unit'.parent) == data.parent else unit'.parent == unit.parent)
    && (if data.manager.Some? then Some(unit'.manager) == data.manager else unit'.manager == unit.manager)
    && (if data.active.Some? then Some(unit'.active) == data.active else unit'.active == unit.active)
  }

  // ---- employees ----

  /** A hire is refused a number or an address in use, a unit that is not active or a supervisor who is not there; the
      employee then has the one row of the hire, active from that day on. */
  lemma HireAnswers(hr: Hr, id: EmpId, h: Hiring)
    requires id !in hr.employees
    ensures NewEmployee(hr, id, h) ==
            if exists e :: e in hr.cards && hr.cards[e].number == h.card.number then Err(NumberTaken)
            else if h.card.email.Some? && exists e :: e in hr.cards && hr.cards[e].email == h.card.email
            then Err(EmailTaken)
            else if !(h.unit in hr.units && hr.units[h.unit].active) then Err(OrgUnitInvalid)
            else if h.supervisor.Some? && h.supervisor.value !in hr.employees then Err(EmployeeInvalid)
            else Ok(Employee(h.hireDate,
                             [JobRow(h.hireDate, 0, Hire, h.title, h.grade, h.unit, h.supervisor, h.etype, Active)]))
    ensures var hr' := WithHire(hr, id, h);
            if NewEmployee(hr, id, h).Ok? then
              hr' == hr.(employees := hr.employees[id := NewEmployee(hr, id, h).value], cards := hr.cards[id := h.card])
            else hr' == hr
  {}

  /** A card is refused an address somebody else has; it then gets what is named and keeps the rest. */
  lemma CardAnswers(hr: Hr, id: EmpId, data: CardUpdate)
    ensures NewCard(hr, id, data) ==
            if id !in hr.cards then Err(EmployeeNotFound)
            else if data.email.Some? && data.email.value.Some?
                    && exists e :: e in hr.cards && e != id && hr.cards[e].email == data.email.value
                    then Err(EmailTaken)
            else
              var card := hr.cards[id];
              Ok(Card(card.number, if data.name.Some? then data.name.value else card.name,
                      if data.email.Some? then data.email.value else card.email))
  {}

  // ---- job rows ----

  /** A given text counts, unless it is empty. */
  function Given(s: Option<string>, otherwise: string): string {
    if s.Some? && s.value != "" then s.value else otherwise
  }

  /** On a sound history a new row is checked against the last one only, in this order; it then takes what is not
      given from it, and comes after it on the same day. */
  lemma AddJobAnswers(hr: Hr, id: EmpId, input: JobInput)
    requires id in hr.employees ==> HistoryOk(hr.employees[id])
    ensures var r := WithJob(hr, id, input);
            if id !in hr.employees then r == Err(EmployeeNotFound)
            else
              var e := hr.employees[id];
              var last := e.jobs[|e.jobs| - 1];
              var boss := if input.supervisor.Some? then input.supervisor.value else last.supervisor;
              if input.action.Hire? then r == Err(HireOnlyOnCreate)
              else if input.effdt < e.hireDate then r == Err(EffdtBeforeHire)
              else if input.effdt < last.effdt then r == Err(EffdtOutOfSequence)
              else if input.action.Rehire? && !last.action.Termination? then r == Err(RehireRequiresTermination)
              else if !input.action.Rehire? && last.action.Termination? then r == Err(EmployeeTerminated)
              else if input.unit.Some? && !(input.unit.value in hr.units && hr.units[input.unit.value].active) then
                r == Err(OrgUnitInvalid)
              else if boss == Some(id) then r == Err(OwnSupervisor)
              else if boss.Some? && boss != last.supervisor && boss.value !in hr.employees
              then r == Err(EmployeeInvalid)
              else
                && r.Ok? && r.value.hireDate == e.hireDate
                && |r.value.jobs| == |e.jobs| + 1 && r.value.jobs[..|e.jobs|] == e.jobs
                && r.value.jobs[|e.jobs|] ==
                   JobRow(input.effdt, if input.effdt == last.effdt then last.effseq + 1 else 0, input.action,
                          Given(input.title, last.title), Given(input.grade, last.grade),
                          if input.unit.Some? then input.unit.value else last.unit, boss,
                          if input.etype.Some? then input.etype.value else last.etype,
                          if input.action.Termination? then Terminated else Active)
  {
    hide LastSeq, JobAsOf, MaxEffdt;
    if id in hr.employees {
      var e := hr.employees[id];
      MaxEffdtIsLast(e.jobs);
      LastOfAll(e, input.effdt);
      if input.effdt >= e.jobs[|e.jobs| - 1].effdt { LastSeqIs(e, input.effdt); }
    }
  }

  lemma LastOfAll(e: Employee, d: Date)
    requires HistoryOk(e)
    ensures var last := e.jobs[|e.jobs| - 1];
            e.hireDate <= last.effdt && (d >= last.effdt ==> JobAsOf(e.jobs, d) == Some(last))
  {
    hide JobAsOf;
    var n := |e.jobs| - 1;
    forall i | 0 <= i <= n ensures e.jobs[i].effdt <= e.jobs[n].effdt {
      if i < n { assert Later(e.jobs[n], e.jobs[i]); }
    }
    if d >= e.jobs[n].effdt { JobAsOfIsLastRow(e.jobs, d, n + 1); }
  }

  lemma LastSeqIs(e: Employee, d: Date)
    requires HistoryOk(e) && d >= e.jobs[|e.jobs| - 1].effdt
    ensures var last := e.jobs[|e.jobs| - 1];
            LastSeq(e.jobs, d) == if d == last.effdt then Some(last.effseq) else None
  {
    var n := |e.jobs| - 1;
    var rest := e.jobs[..n];
    forall i | 0 <= i < n
      ensures e.jobs[i].effdt < d || (e.jobs[i].effdt == d && d == e.jobs[n].effdt
                                      && e.jobs[i].effseq < e.jobs[n].effseq)
    {
      assert Later(e.jobs[n], e.jobs[i]);
    }
    SeqBelow(rest, d, e.jobs[n].effseq);
    if d != e.jobs[n].effdt { SeqBelow(rest, d, 0); }
  }

  lemma {:induction false} SeqBelow(rows: seq<JobRow>, d: Date, n: nat)
    requires forall r :: r in rows && r.effdt == d ==> r.effseq < n
    ensures LastSeq(rows, d).Some? ==> LastSeq(rows, d).value < n
  {
    if rows != [] {
      assert rows[|rows| - 1] in rows;
      SeqBelow(rows[..|rows| - 1], d, n);
    }
  }
}
