/** The tree of org units (backend/app/services/org_units.py, backend/app/rules/core_hr.py). */
module OrgTree {
  import opened Common
  import opened JobHistory

  datatype Unit = Unit(code: string, name: string, parent: Option<UnitId>, manager: Option<EmpId>, active: bool)

  type Units = map<UnitId, Unit>

  datatype UnitError = UnitNotFound | CodeTaken | ParentInvalid | ManagerInvalid | UnitCycle | HasActiveChildren

  /** A missing field stays as it is; parent and manager can also be cleared. */
  datatype UnitUpdate = UnitUpdate(name: Option<string>, parent: Option<Option<UnitId>>,
                                   manager: Option<Option<EmpId>>, active: Option<bool>)

  // ---- parent links ----

  function ParentOf(units: Units, u: UnitId): Option<UnitId> {
    if u in units && units[u].parent.Some? && units[u].parent.value in units then units[u].parent else None
  }

  /** `n` parent links up. */
  function Up(units: Units, u: Option<UnitId>, n: nat): Option<UnitId>
    decreases n
  {
    if n == 0 || u.None? then u else Up(units, ParentOf(units, u.value), n - 1)
  }

  ghost predicate IsAncestor(units: Units, start: UnitId, a: UnitId) {
    start in units && exists n :: Up(units, Some(start), n) == Some(a)
  }

  lemma {:induction false} UpOneMore(units: Units, u: Option<UnitId>, n: nat)
    ensures Up(units, u, n + 1) == (var a := Up(units, u, n); if a.None? then None else ParentOf(units, a.value))
    decreases n
  {
    if n > 0 && u.Some? { UpOneMore(units, ParentOf(units, u.value), n - 1); }
  }

  lemma {:induction false} UpAdd(units: Units, u: Option<UnitId>, m: nat, n: nat)
    ensures Up(units, u, m + n) == Up(units, Up(units, u, m), n)
    decreases m
  {
    if m > 0 && u.Some? { UpAdd(units, ParentOf(units, u.value), m - 1, n); }
  }

  /** `_ancestors`: the unit and everything above it, also when the links run in a circle. */
  method Ancestors(units: Units, start: UnitId) returns (chain: seq<UnitId>)
    ensures forall a :: a in chain <==> IsAncestor(units, start, a)
    ensures forall i, j :: 0 <= i < j < |chain| ==> chain[i] != chain[j]
    ensures forall i :: 0 <= i < |chain| ==> Up(units, Some(start), i) == Some(chain[i])
  {
    chain := [];
    if start !in units { return; }
    var current := Some(start);
    ghost var left := units.Keys;
    while current.Some? && current.value !in chain
      invariant current == Up(units, Some(start), |chain|)
      invariant current.Some? ==> current.value in units
      invariant forall i :: 0 <= i < |chain| ==> Up(units, Some(start), i) == Some(chain[i])
      invariant forall i, j :: 0 <= i < j < |chain| ==> chain[i] != chain[j]
      invariant forall u :: u in left <==> u in units && u !in chain
      decreases left
    {
      UpOneMore(units, Some(start), |chain|);
      left := left - {current.value};
      chain := chain + [current.value];
      current := ParentOf(units, current.value);
    }
    forall a | IsAncestor(units, start, a) ensures a in chain {
      var n: nat :| Up(units, Some(start), n) == Some(a);
      NothingBeyond(units, start, chain, n);
    }
    forall a | a in chain ensures IsAncestor(units, start, a) {
      var i :| 0 <= i < |chain| && chain[i] == a;
    }
  }

  /** Once the chain ends or repeats, no further link leads out of it. */
  lemma {:induction false} NothingBeyond(units: Units, start: UnitId, chain: seq<UnitId>, n: nat)
    requires forall i :: 0 <= i < |chain| ==> Up(units, Some(start), i) == Some(chain[i])
    requires var next := Up(units, Some(start), |chain|); next.Some? ==> next.value in chain
    ensures var a := Up(units, Some(start), n); a.Some? ==> a.value in chain
  {
    if n > |chain| {
      NothingBeyond(units, start, chain, n - 1);
      UpOneMore(units, Some(start), n - 1);
      var b := Up(units, Some(start), n - 1);
      if b.Some? {
        var i :| 0 <= i < |chain| && chain[i] == b.value;
        UpOneMore(units, Some(start), i);
        assert i + 1 < |chain| ==> Up(units, Some(start), i + 1) == Some(chain[i + 1]);
      }
    }
  }

  // ---- no circles ----

  /** The links from the unit come to an end. */
  ghost predicate Rooted(units: Units, u: UnitId) { exists n :: Up(units, Some(u), n) == None }

  ghost predicate IsForest(units: Units) { forall u :: u in units ==> Rooted(units, u) }

  /** In a forest no unit is above itself. */
  lemma ForestHasNoCycle(units: Units, u: UnitId, n: nat)
    requires IsForest(units) && u in units && n > 0
    ensures Up(units, Some(u), n) != Some(u)
  {
    if Up(units, Some(u), n) == Some(u) {
      var m: nat :| Up(units, Some(u), m) == None;
      GoingRound(units, u, n, m);
      EndsForGood(units, Some(u), m, m * n);
    }
  }

  lemma {:induction false} GoingRound(units: Units, u: UnitId, n: nat, k: nat)
    requires n > 0 && Up(units, Some(u), n) == Some(u)
    ensures Up(units, Some(u), k * n) == Some(u) && k * n >= k
  {
    if k > 0 {
      GoingRound(units, u, n, k - 1);
      UpAdd(units, Some(u), (k - 1) * n, n);
      assert (k - 1) * n + n == k * n;
    }
  }

  lemma EndsForGood(units: Units, u: Option<UnitId>, m: nat, n: nat)
    requires Up(units, u, m) == None && m <= n
    ensures Up(units, u, n) == None
  {
    UpAdd(units, u, m, n - m);
  }

  function Moved(units: Units, u: UnitId, parent: Option<UnitId>): Units
    requires u in units
  {
    units[u := units[u].(parent := parent)]
  }

  /** A chain of links that does not pass `u` stays when `u` moves. */
  lemma {:induction false} ChainStays(units: Units, units': Units, u: UnitId, s: UnitId, n: nat)
    requires forall x :: x != u ==> ParentOf(units, x) == ParentOf(units', x)
    requires s in units && !IsAncestor(units, s, u)
    ensures Up(units', Some(s), n) == Up(units, Some(s), n)
    decreases n
  {
    assert Up(units, Some(s), 0) == Some(s);
    if n > 0 && ParentOf(units, s).Some? {
      var p := ParentOf(units, s).value;
      forall k: nat ensures Up(units, Some(p), k) != Some(u) {
        assert Up(units, Some(s), k + 1) == Up(units, Some(p), k);
      }
      ChainStays(units, units', u, p, n - 1);
    }
  }

  lemma {:induction false} RootedAfterMove(units: Units, units': Units, u: UnitId, s: UnitId, n: nat)
    requires forall x :: x != u ==> ParentOf(units, x) == ParentOf(units', x)
    requires Rooted(units', u) && Up(units, Some(s), n) == None
    ensures Rooted(units', s)
    decreases n
  {
    if s != u {
      if ParentOf(units, s).None? {
        assert Up(units', Some(s), 1) == None;
      } else {
        var p := ParentOf(units, s).value;
        RootedAfterMove(units, units', u, p, n - 1);
        var k: nat :| Up(units', Some(p), k) == None;
        assert Up(units', Some(s), k + 1) == None;
      }
    }
  }

  /** The path from `s` to the first `u` is still there after `u` moved. */
  lemma {:induction false} PathStays(units: Units, units': Units, u: UnitId, s: UnitId, n: nat)
    requires forall x :: x != u ==> ParentOf(units, x) == ParentOf(units', x)
    requires Up(units, Some(s), n) == Some(u)
    ensures exists m :: Up(units', Some(s), m) == Some(u)
    decreases n
  {
    if s == u {
      assert Up(units', Some(s), 0) == Some(u);
    } else {
      var p := ParentOf(units, s).value;
      PathStays(units, units', u, p, n - 1);
      var m: nat :| Up(units', Some(p), m) == Some(u);
      assert Up(units', Some(s), m + 1) == Some(u);
    }
  }

  /** The cycle check is exact: a move keeps the forest iff the unit is not above its new parent. */
  lemma CycleCheckExact(units: Units, u: UnitId, p: UnitId)
    requires IsForest(units) && u in units && p in units
    ensures IsForest(Moved(units, u, Some(p))) <==> !IsAncestor(units, p, u)
  {
    var units' := Moved(units, u, Some(p));
    if IsAncestor(units, p, u) {
      var n: nat :| Up(units, Some(p), n) == Some(u);
      PathStays(units, units', u, p, n);
      var m: nat :| Up(units', Some(p), m) == Some(u);
      assert Up(units', Some(u), m + 1) == Some(u);
      if IsForest(units') { ForestHasNoCycle(units', u, m + 1); }
    } else {
      var n: nat :| Up(units, Some(p), n) == None;
      ChainStays(units, units', u, p, n);
      assert Up(units', Some(u), n + 1) == None;
      MoveKeepsForest(units, units', u);
    }
  }

  lemma MoveKeepsForest(units: Units, units': Units, u: UnitId)
    requires IsForest(units) && units'.Keys == units.Keys && Rooted(units', u)
    requires forall x :: x != u ==> ParentOf(units, x) == ParentOf(units', x)
    ensures IsForest(units')
  {
    forall s | s in units' ensures Rooted(units', s) {
      var n: nat :| Up(units, Some(s), n) == None;
      RootedAfterMove(units, units', u, s, n);
    }
  }

  // ---- two moves at once ----

  /** After a move a chain leads to `v` by way of the old links, or of the new parent's. */
  lemma {:induction false} MovedChain(units: Units, u: UnitId, p: UnitId, s: UnitId, v: UnitId, n: nat)
    requires u in units && p in units && s in units && !IsAncestor(units, p, u)
    requires Up(Moved(units, u, Some(p)), Some(s), n) == Some(v)
    ensures IsAncestor(units, s, v) || (IsAncestor(units, s, u) && IsAncestor(units, p, v))
    decreases n
  {
    var units' := Moved(units, u, Some(p));
    assert Up(units, Some(s), 0) == Some(s);
    if s != v {
      if s == u {
        ChainStays(units, units', u, p, n - 1);
      } else {
        var parent := ParentOf(units, s).value;
        MovedChain(units, u, p, parent, v, n - 1);
        AncestorOfParent(units, s, v);
        AncestorOfParent(units, s, u);
      }
    }
  }

  lemma AncestorOfParent(units: Units, s: UnitId, a: UnitId)
    requires s in units && ParentOf(units, s).Some?
    ensures IsAncestor(units, ParentOf(units, s).value, a) ==> IsAncestor(units, s, a)
  {
    if IsAncestor(units, ParentOf(units, s).value, a) {
      var n: nat :| Up(units, ParentOf(units, s), n) == Some(a);
      assert Up(units, Some(s), n + 1) == Some(a);
    }
  }

  /** After `u` moved below `p` the unit `v` is above `q` iff it was, or `u` is above `q` and `v` above `p`. */
  lemma AboveAfterMove(units: Units, u: UnitId, p: UnitId, q: UnitId, v: UnitId)
    requires u in units && p in units && q in units && !IsAncestor(units, p, u) && !IsAncestor(units, q, v)
    ensures IsAncestor(Moved(units, u, Some(p)), q, v) <==> IsAncestor(units, q, u) && IsAncestor(units, p, v)
  {
    var units' := Moved(units, u, Some(p));
    if IsAncestor(units', q, v) {
      var n: nat :| Up(units', Some(q), n) == Some(v);
      MovedChain(units, u, p, q, v, n);
    }
    if IsAncestor(units, q, u) && IsAncestor(units, p, v) {
      var m: nat :| Up(units, Some(q), m) == Some(u);
      PathStays(units, units', u, q, m);
      var k: nat :| Up(units', Some(q), k) == Some(u);
      var n: nat :| Up(units, Some(p), n) == Some(v);
      ChainStays(units, units', u, p, n);
      assert Up(units', Some(u), n + 1) == Some(v);
      UpAdd(units', Some(q), k, n + 1);
    }
  }

  /** Two moves checked against the same tree, each accepted, leave a forest when both are written iff not each
      unit was above the other's new parent. */
  lemma ConcurrentMoves(units: Units, u: UnitId, p: UnitId, v: UnitId, q: UnitId)
    requires IsForest(units) && u in units && v in units && p in units && q in units && u != v
    requires !IsAncestor(units, p, u) && !IsAncestor(units, q, v)
    ensures IsForest(Moved(Moved(units, u, Some(p)), v, Some(q))) <==>
            !(IsAncestor(units, q, u) && IsAncestor(units, p, v))
  {
    hide IsForest, IsAncestor, Up;
    CycleCheckExact(units, u, p);
    CycleCheckExact(Moved(units, u, Some(p)), v, q);
    AboveAfterMove(units, u, p, q, v);
  }

  /** Two units at the top, each moved below the other at the same time, end in a circle. */
  lemma ConcurrentMovesCanClose()
    ensures var units := map[1 := Unit("A", "A", None, None, true), 2 := Unit("B", "B", None, None, true)];
            var first, second := UpdateUnit(units, {}, 1, MoveTo(2)), UpdateUnit(units, {}, 2, MoveTo(1));
            && TreeOk(units) && first.Ok? && second.Ok?
            && !IsForest(Moved(Moved(units, 1, first.value[1].parent), 2, second.value[2].parent))
  {
    var units := map[1 := Unit("A", "A", None, None, true), 2 := Unit("B", "B", None, None, true)];
    TopIsAlone(units, 1);
    TopIsAlone(units, 2);
    assert Up(units, Some(1), 0) == Some(1) && Up(units, Some(2), 0) == Some(2);
    assert IsAncestor(units, 1, 1) && IsAncestor(units, 2, 2);
    ConcurrentMoves(units, 1, 2, 2, 1);
  }

  function MoveTo(p: UnitId): UnitUpdate { UnitUpdate(None, Some(Some(p)), None, None) }

  /** A unit without a parent has nothing above it. */
  lemma TopIsAlone(units: Units, u: UnitId)
    requires u in units && units[u].parent.None?
    ensures Rooted(units, u) && forall a :: IsAncestor(units, u, a) ==> a == u
  {
    assert Up(units, Some(u), 1) == None;
    forall a | IsAncestor(units, u, a) ensures a == u {
      var n: nat :| Up(units, Some(u), n) == Some(a);
      assert Up(units, Some(u), n) == if n == 0 then Some(u) else None;
    }
  }

  // ---- creating and updating units ----

  predicate CodeIsTaken(units: Units, code: string) { exists u :: u in units && units[u].code == code }

  predicate IsActiveUnit(units: Units, u: UnitId) { u in units && units[u].active }

  predicate HasActiveChild(units: Units, u: UnitId) {
    exists c :: c in units && units[c].parent == Some(u) && units[c].active
  }

  /** `create_org_unit` with a fresh id and a code already stripped and in upper case. */
  function CreateUnit(units: Units, employees: set<EmpId>, u: UnitId, code: string, name: string,
                      parent: Option<UnitId>, manager: Option<EmpId>): Result<Units, UnitError>
    requires u !in units
  {
    if CodeIsTaken(units, code) then Err(CodeTaken)
    else if parent.Some? && !IsActiveUnit(units, parent.value) then Err(ParentInvalid)
    else if manager.Some? && manager.value !in employees then Err(ManagerInvalid)
    else Ok(units[u := Unit(code, name, parent, manager, true)])
  }

  /** `update_org_unit`: the fields in its order, each check on what is there when its turn comes. */
  ghost function UpdateUnit(units: Units, employees: set<EmpId>, u: UnitId, data: UnitUpdate)
    : Result<Units, UnitError>
  {
    if u !in units then Err(UnitNotFound)
    else if data.parent.Some? && data.parent.value.Some? && !IsActiveUnit(units, data.parent.value.value) then
      Err(ParentInvalid)
    else if data.parent.Some? && data.parent.value.Some? && IsAncestor(units, data.parent.value.value, u) then
      Err(UnitCycle)
    else if data.manager.Some? && data.manager.value.Some? && data.manager.value.value !in employees then
      Err(ManagerInvalid)
    else if data.active == Some(false) && HasActiveChild(units, u) then Err(HasActiveChildren)
    else
      var unit := units[u];
      Ok(units[u := unit.(name := if data.name.Some? then data.name.value else unit.name,
                          parent := if data.parent.Some? then data.parent.value else unit.parent,
                          manager := if data.manager.Some? then data.manager.value else unit.manager,
                          active := if data.active.Some? then data.active.value else unit.active)])
  }

  // ---- what they keep ----

  predicate ParentsExist(units: Units) {
    forall u :: u in units && units[u].parent.Some? ==> units[u].parent.value in units
  }

  predicate CodesDiffer(units: Units) {
    forall u, v :: u in units && v in units && u != v ==> units[u].code != units[v].code
  }

  ghost predicate TreeOk(units: Units) { ParentsExist(units) && CodesDiffer(units) && IsForest(units) }

  lemma CreateKeepsTree(units: Units, employees: set<EmpId>, u: UnitId, code: string, name: string,
                        parent: Option<UnitId>,
                        manager: Option<EmpId>)
    requires TreeOk(units) && u !in units && CreateUnit(units, employees, u, code, name, parent, manager).Ok?
    ensures TreeOk(CreateUnit(units, employees, u, code, name, parent, manager).value)
  {
    hide IsForest, Rooted;
    NewLeafKeepsForest(units, u, Unit(code, name, parent, manager, true));
  }

  lemma NewLeafKeepsForest(units: Units, u: UnitId, unit: Unit)
    requires IsForest(units) && ParentsExist(units) && u !in units && (unit.parent.Some? ==> unit.parent.value in units)
    ensures IsForest(units[u := unit])
  {
    var units' := units[u := unit];
    if unit.parent.Some? {
      var p := unit.parent.value;
      var n: nat :| Up(units, Some(p), n) == None;
      assert !IsAncestor(units, p, u) by { if IsAncestor(units, p, u) { AncestorsExist(units, p, u); } }
      ChainStays(units, units', u, p, n);
      assert Up(units', Some(u), n + 1) == None;
    } else {
      assert Up(units', Some(u), 1) == None;
    }
    forall s | s in units ensures Rooted(units', s) {
      var n: nat :| Up(units, Some(s), n) == None;
      RootedAfterMove(units, units', u, s, n);
    }
  }

  lemma AncestorsExist(units: Units, start: UnitId, a: UnitId)
    requires IsAncestor(units, start, a)
    ensures a in units
  {
    var n: nat :| Up(units, Some(start), n) == Some(a);
    if n > 0 { UpOneMore(units, Some(start), n - 1); }
  }

  /** The parent an update may set leaves the forest a forest. */
  lemma AllowedMove(units: Units, u: UnitId, parent: Option<UnitId>)
    requires IsForest(units) && u in units
    requires parent.Some? ==> parent.value in units && !IsAncestor(units, parent.value, u)
    ensures IsForest(Moved(units, u, parent))
  {
    hide IsForest, Rooted, IsAncestor, Up;
    if parent.Some? { CycleCheckExact(units, u, parent.value); } else { DetachKeepsForest(units, u); }
  }

  lemma UpdateKeepsForest(units: Units, employees: set<EmpId>, u: UnitId, data: UnitUpdate)
    requires TreeOk(units) && UpdateUnit(units, employees, u, data).Ok?
    ensures IsForest(UpdateUnit(units, employees, u, data).value)
  {
    hide IsForest, Rooted, IsAncestor, Up, CodesDiffer, HasActiveChild;
    var units' := UpdateUnit(units, employees, u, data).value;
    var moved := Moved(units, u, units'[u].parent);
    if data.parent.Some? {
      AllowedMove(units, u, data.parent.value);
    } else {
      assert moved == units;
    }
    SameLinksSameForest(moved, units');
  }

  /** Updates keep parents, codes and the forest. */
  lemma UpdateKeepsTree(units: Units, employees: set<EmpId>, u: UnitId, data: UnitUpdate)
    requires TreeOk(units) && UpdateUnit(units, employees, u, data).Ok?
    ensures TreeOk(UpdateUnit(units, employees, u, data).value)
  {
    hide IsForest, IsAncestor, HasActiveChild;
    UpdateKeepsForest(units, employees, u, data);
  }

  lemma DetachKeepsForest(units: Units, u: UnitId)
    requires IsForest(units) && u in units
    ensures IsForest(Moved(units, u, None))
  {
    var units' := Moved(units, u, None);
    assert Up(units', Some(u), 1) == None;
    MoveKeepsForest(units, units', u);
  }

  lemma {:induction false} SameLinksSameUp(units: Units, units': Units, u: Option<UnitId>, n: nat)
    requires forall x :: ParentOf(units, x) == ParentOf(units', x)
    ensures Up(units, u, n) == Up(units', u, n)
    decreases n
  {
    if n > 0 && u.Some? { SameLinksSameUp(units, units', ParentOf(units, u.value), n - 1); }
  }

  lemma SameLinksSameForest(units: Units, units': Units)
    requires IsForest(units) && units'.Keys == units.Keys && forall x :: ParentOf(units, x) == ParentOf(units', x)
    ensures IsForest(units')
  {
    forall u | u in units' ensures Rooted(units', u) {
      var n: nat :| Up(units, Some(u), n) == None;
      SameLinksSameUp(units, units', Some(u), n);
    }
  }

  // ---- active units under active parents ----

  /** Every active unit is at the top or under an active one. */
  predicate ActiveParents(units: Units) {
    forall u :: u in units && units[u].active && units[u].parent.Some? ==> IsActiveUnit(units, units[u].parent.value)
  }

  lemma CreateKeepsActiveParents(units: Units, employees: set<EmpId>, u: UnitId, code: string, name: string,
                                 parent: Option<UnitId>,
                                 manager: Option<EmpId>)
    requires ActiveParents(units) && u !in units && CreateUnit(units, employees, u, code, name, parent, manager).Ok?
    ensures ActiveParents(CreateUnit(units, employees, u, code, name, parent, manager).value)
  {}

  /** The unit is made active where it is, and its parent is not. */
  predicate ReactivatedBelowInactive(units: Units, u: UnitId, data: UnitUpdate)
    requires u in units
  {
    data.active == Some(true) && data.parent.None? && units[u].parent.Some?
    && !IsActiveUnit(units, units[u].parent.value)
  }

  /** An update keeps active units under active parents except when it reactivates a unit below an inactive one. */
  lemma UpdateKeepsActiveParents(units: Units, employees: set<EmpId>, u: UnitId, data: UnitUpdate)
    requires TreeOk(units) && ActiveParents(units) && UpdateUnit(units, employees, u, data).Ok?
    ensures ActiveParents(UpdateUnit(units, employees, u, data).value) <==> !ReactivatedBelowInactive(units, u, data)
  {
    hide IsForest, IsAncestor;
    var units' := UpdateUnit(units, employees, u, data).value;
    if units'[u].parent == Some(u) {
      NotItsOwnParent(units, employees, u, data);
    }
    if !ReactivatedBelowInactive(units, u, data) {
      forall c | c in units' && units'[c].active && units'[c].parent.Some?
        ensures IsActiveUnit(units', units'[c].parent.value)
      {
        if c != u { assert IsActiveUnit(units, units[c].parent.value); }
      }
    } else {
      assert !IsActiveUnit(units', units'[u].parent.value);
    }
  }

  lemma NotItsOwnParent(units: Units, employees: set<EmpId>, u: UnitId, data: UnitUpdate)
    requires TreeOk(units) && UpdateUnit(units, employees, u, data).Ok?
    ensures UpdateUnit(units, employees, u, data).value[u].parent != Some(u)
  {
    UpdateKeepsTree(units, employees, u, data);
    var units' := UpdateUnit(units, employees, u, data).value;
    ForestHasNoCycle(units', u, 1);
    assert Up(units', Some(u), 1) == ParentOf(units', u);
  }

  /** The exception does occur. */
  lemma ReactivationBelowInactiveHappens()
    ensures var units := map[1 := Unit("A", "A", None, None, false), 2 := Unit("B", "B", Some(1), None, false)];
            var r := UpdateUnit(units, {}, 2, UnitUpdate(None, None, None, Some(true)));
            ActiveParents(units) && r.Ok? && !ActiveParents(r.value)
  {
    var units := map[1 := Unit("A", "A", None, None, false), 2 := Unit("B", "B", Some(1), None, false)];
    var r := UpdateUnit(units, {}, 2, UnitUpdate(None, None, None, Some(true)));
    assert 2 in r.value && r.value[2].active && r.value[2].parent == Some(1) && !IsActiveUnit(r.value, 1);
  }
}
