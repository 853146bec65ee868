/** The smallest store the leave rules can work on: one employee, one leave type and one policy. */
module SmallLedger {
  import opened Common
  import opened Calendar
  import opened LeaveRules
  import opened JobHistory
  import opened LeaveAccrual
  import opened LeaveLedger

  const ANNUAL := LeaveType(true, 0, true, None, 1, true)
  const GRANT := Policy(1, None, 0, 6, 6, 3)

  function HireRow(hired: Date): JobRow { FirstJob(hired, "Clerk", "A", 1, None, Permanent) }

  function Clerk(hired: Date): Employee { Employee(hired, [HireRow(hired)]) }

  function Small(hired: Date, p: Policy, balances: map<Key, Balance>): Store {
    Store(map[1 := Clerk(hired)], map[1 := ANNUAL], [p], balances)
  }

  function WithoutRequests(st: Store): Ledger { Ledger(st, {}, []) }

  function K(year: int): Key { Key(1, 1, year) }

  function Setup(hired: Date): seq<Event> {
    [AddingType(1, ANNUAL), HiringEmployee(1, hired, HireRow(hired)), SettingPolicies([GRANT])]
  }

  lemma OneMore(l: Ledger, es: seq<Event>, e: Event)
    ensures After(l, es + [e]) == Next(After(l, es), e)
  {
    hide Next;
    assert (es + [e])[..|es|] == es;
  }

  lemma FirstSteps(hired: Date)
    ensures Next(EMPTY, AddingType(1, ANNUAL)) == Ledger(Store(map[], map[1 := ANNUAL], [], map[]), {}, [])
    ensures Next(Ledger(Store(map[], map[1 := ANNUAL], [], map[]), {}, []), HiringEmployee(1, hired, HireRow(hired))) ==
            Ledger(Store(map[1 := Clerk(hired)], map[1 := ANNUAL], [], map[]), {}, [])
    ensures Next(Ledger(Store(map[1 := Clerk(hired)], map[1 := ANNUAL], [], map[]), {}, []),
                 SettingPolicies([GRANT])) ==
            WithoutRequests(Small(hired, GRANT, map[]))
  {
  }

  lemma SetUp(hired: Date)
    ensures After(EMPTY, Setup(hired)) == WithoutRequests(Small(hired, GRANT, map[]))
  {
    hide Next, After;
    var a, b, c := AddingType(1, ANNUAL), HiringEmployee(1, hired, HireRow(hired)), SettingPolicies([GRANT]);
    OneMore(EMPTY, [], a);
    OneMore(EMPTY, [a], b);
    OneMore(EMPTY, [a] + [b], c);
    assert [] + [a] == [a] && [a] + [b] + [c] == Setup(hired);
    AfterNothing();
    FirstSteps(hired);
  }

  lemma AfterNothing()
    ensures After(EMPTY, []) == EMPTY
  {}

  /** A written date is in its year. */
  lemma YearOfDate(y: int, m: int, d: int)
    requires 1 <= m <= 12 && 1 <= d <= 28
    ensures Year(Ymd(y, m, d)) == y
  {
    hide Year, DaysBeforeYear, Month, Ymd, MonthLength, Day;
    MonthLengthsAre(y, m);
    YmdReadsBack(y, m, d);
  }

  lemma OnePolicy(p: Policy, grade: Option<string>, months: nat)
    requires p.ltype == 1 && p.grade.None? && p.minMonths == 0
    ensures PickPolicy([p], 1, grade, months) == Some(p)
  {
    assert PickPolicy([], 1, grade, months).None?;
  }

  lemma ClerkIsActive(hired: Date, asOf: Date)
    requires hired <= asOf
    ensures IsActiveAt(Clerk(hired), asOf)
  {
    assert JobAsOf([], asOf).None?;
    assert Clerk(hired).jobs[..0] == [];
  }

  /** The accrual on the small store changes the one row of the year. */
  lemma AccrueOne(hired: Date, p: Policy, balances: map<Key, Balance>, asOf: Date, lo: EmpId, hi: EmpId)
    requires hired <= asOf && lo <= 1 <= hi
    ensures var st := Small(hired, p, balances);
            var k := K(Year(asOf));
            RunChunk(AccrualJob, st, asOf, lo, hi).0 ==
            st.(balances := balances[k := Accrued(st, k, asOf, Lookup(st, k))])
  {
    hide Accrued, CountsFor, Year, IsActiveAt;
    ClerkIsActive(hired, asOf);
    var st, k := Small(hired, p, balances), K(Year(asOf));
    assert AccrualEmployees(st, asOf, lo, hi) == {1};
    assert AccrualTypes(st) == {1};
    assert ChunkKeys(AccrualJob, st, asOf, lo, hi) == {k};
    assert Applied(AccrualJob, st, asOf, {k}).balances == balances[k := Accrued(st, k, asOf, Lookup(st, k))];
  }

  /** A new row under the one policy. */
  lemma RowOf(hired: Date, p: Policy, balances: map<Key, Balance>, year: int, asOf: Date)
    requires p.ltype == 1 && p.grade.None? && p.minMonths == 0 && K(year) !in balances
    ensures var st := Small(hired, p, balances);
            var b := NewBalance(p.annualDays);
            var carry := if K(year - 1) in balances then Min(Max(balances[K(year - 1)].Available(), 0), p.maxCarry)
                         else 0;
            Accrued(st, K(year), asOf, None) ==
            if carry == 0 then b.(applied := true)
            else b.(carried := carry, applied := true, expiresOn := CarryOverExpiry(year, p.expiryMonths))
  {
    hide PickPolicy, JobAsOf, ServiceMonths, CarryOverExpiry, JanFirst;
    var st := Small(hired, p, balances);
    var reference := Max(JanFirst(year), hired);
    OnePolicy(p, GradeAt(Clerk(hired), reference), ServiceMonths(hired, reference));
    OnePolicy(p, GradeAt(Clerk(hired), asOf), ServiceMonths(hired, asOf));
  }
}
