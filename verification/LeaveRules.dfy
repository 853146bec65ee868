/** Hard leave rules (backend/app/rules/leave.py). */
module LeaveRules {
  import opened Common
  import opened Calendar

  const MAX_REQUEST_SPAN_DAYS := 184

  type TypeId = nat

  datatype Policy = Policy(ltype: TypeId, grade: Option<string>, minMonths: nat,
                           annualDays: nat, maxCarry: nat, expiryMonths: nat)

  /** What a rule check reports. */
  datatype Violation =
    | LeaveTypeInactive | InvalidDateRange | CrossYear | RangeTooLong | NoWorkingDays | EmployeeNotActive
    | StartInPast | InsufficientNotice | ExceedsMaxDays | OverlappingRequest | InsufficientBalance

  // ---- working days ----

  /** The loop over the calendar counts exactly the Monday-to-Friday non-holidays of the range. */
  method WorkingDays(start: Date, end: Date, holidays: set<Date>) returns (days: nat)
    ensures days == |Workdays(start, end, holidays)|
    ensures days <= |Weekdays(start, end)|
  {
    days := 0;
    var current := start;
    assert Workdays(start, start - 1, holidays) == {};
    while current <= end
      invariant start <= current && (current <= end + 1 || current == start)
      invariant days == |Workdays(start, current - 1, holidays)|
    {
      ExtendWorkdays(start, current, holidays);
      if Weekday(current) < 5 && current !in holidays {
        days := days + 1;
      }
      current := current + 1;
    }
    assert Workdays(start, end, holidays) == Workdays(start, current - 1, holidays);
    WorkdaysAreWeekdays(start, end, holidays);
  }

  lemma WorkdaysAreWeekdays(start: Date, end: Date, holidays: set<Date>)
    ensures |Workdays(start, end, holidays)| <= |Weekdays(start, end)|
  {
    SubsetCard(Workdays(start, end, holidays), Weekdays(start, end));
  }

  /** Splitting a range adds its working days up. */
  lemma WorkingDaysAdd(start: Date, mid: Date, end: Date, holidays: set<Date>)
    requires start <= mid + 1 && mid <= end
    ensures |Workdays(start, end, holidays)| ==
            |Workdays(start, mid, holidays)| + |Workdays(mid + 1, end, holidays)|
  {
    var a, b := Workdays(start, mid, holidays), Workdays(mid + 1, end, holidays);
    assert Workdays(start, end, holidays) == a + b;
    assert a !! b;
  }

  // ---- months of service ----

  function ServiceMonths(hire: Date, asOf: Date): nat {
    var months := (Year(asOf) - Year(hire)) * 12 + (Month(asOf) - Month(hire));
    Max(if Day(asOf) < Day(hire) then months - 1 else months, 0)
  }

  /** (month counted from year 0, day of month) of `later` is not before that of `earlier`. */
  predicate MonthDayReached(hire: Date, months: int, asOf: Date) {
    var due := Year(hire) * 12 + Month(hire) + months;
    var now := Year(asOf) * 12 + Month(asOf);
    due < now || (due == now && Day(hire) <= Day(asOf))
  }

  /** `m` full months have passed iff the day of hire has come round `m` months later. */
  lemma ServiceMonthsCountsFullMonths(hire: Date, asOf: Date, m: nat)
    ensures ServiceMonths(hire, asOf) >= m <==> m == 0 || MonthDayReached(hire, m, asOf)
  {}

  // ---- policy choice ----

  function UpperChar(c: char): char { if 'a' <= c <= 'z' then c - 'a' + 'A' else c }

  function Upper(s: string): string {
    if s == "" then "" else [UpperChar(s[0])] + Upper(s[1..])
  }

  function NormalGrade(grade: Option<string>): Option<string> {
    if grade.None? || grade.value == "" then None else Some(Upper(grade.value))
  }

  predicate Applies(p: Policy, ltype: TypeId, grade: Option<string>, months: nat) {
    p.ltype == ltype && p.minMonths <= months && (p.grade.None? || p.grade == NormalGrade(grade))
  }

  /** The sort key of the choice: a policy for the grade beats a general one, then more months win. */
  predicate Better(p: Policy, q: Policy) {
    if p.grade.None? == q.grade.None? then p.minMonths > q.minMonths else p.grade.Some?
  }

  /** Python's `min` over the candidates: the first of the best ones. */
  function PickPolicy(ps: seq<Policy>, ltype: TypeId, grade: Option<string>, months: nat): Option<Policy> {
    if ps == [] then None else
      var best := PickPolicy(ps[..|ps| - 1], ltype, grade, months);
      var p := ps[|ps| - 1];
      if Applies(p, ltype, grade, months) && (best.None? || Better(p, best.value)) then Some(p) else best
  }

  lemma {:induction false} PickPolicyIsBest(ps: seq<Policy>, ltype: TypeId, grade: Option<string>, months: nat)
    ensures var r := PickPolicy(ps, ltype, grade, months);
            if r.None? then forall p :: p in ps ==> !Applies(p, ltype, grade, months)
            else r.value in ps && Applies(r.value, ltype, grade, months) &&
                 forall p :: p in ps && Applies(p, ltype, grade, months) ==> !Better(p, r.value)
  {
    if ps != [] {
      var rest, last := ps[..|ps| - 1], ps[|ps| - 1];
      PickPolicyIsBest(rest, ltype, grade, months);
      assert forall p :: p in ps ==> p in rest || p == last;
      assert last in ps;
    }
  }

  /** The most specific rule: one for the grade if any applies, and among its like the most months of service. */
  lemma PickPolicyIsMostSpecific(ps: seq<Policy>, ltype: TypeId, grade: Option<string>, months: nat)
    ensures var r := PickPolicy(ps, ltype, grade, months);
            (r.None? <==> forall p :: p in ps ==> !Applies(p, ltype, grade, months))
            && (r.Some? ==> r.value in ps && Applies(r.value, ltype, grade, months) &&
                            forall p :: p in ps && Applies(p, ltype, grade, months) ==>
                              (p.grade.Some? ==> r.value.grade.Some?)
                              && (p.grade.Some? == r.value.grade.Some? ==> p.minMonths <= r.value.minMonths))
  {
    PickPolicyIsBest(ps, ltype, grade, months);
  }

  function GradeKey(p: Policy): string { if p.grade.None? then "" else p.grade.value }

  /** The unique index over (leave type, coalesce(grade, ''), months of service). */
  predicate UniqueRules(ps: seq<Policy>) {
    forall i, j :: 0 <= i < j < |ps| ==>
      !(ps[i].ltype == ps[j].ltype && GradeKey(ps[i]) == GradeKey(ps[j]) && ps[i].minMonths == ps[j].minMonths)
  }

  /** Under the unique index the chosen policy does not depend on the order the query returns them in. */
  lemma PickPolicyOrderFree(ps: seq<Policy>, qs: seq<Policy>, ltype: TypeId, grade: Option<string>, months: nat)
    requires UniqueRules(ps)
    requires forall p :: p in ps <==> p in qs
    ensures PickPolicy(ps, ltype, grade, months) == PickPolicy(qs, ltype, grade, months)
  {
    PickPolicyIsBest(ps, ltype, grade, months);
    PickPolicyIsBest(qs, ltype, grade, months);
    var a, b := PickPolicy(ps, ltype, grade, months), PickPolicy(qs, ltype, grade, months);
    if a.Some? && b.Some? {
      assert !Better(a.value, b.value) && !Better(b.value, a.value);
      var i :| 0 <= i < |ps| && ps[i] == a.value;
      var j :| 0 <= j < |ps| && ps[j] == b.value;
    }
  }

  /** The policies of one leave type, as a query filtered on it returns them. */
  function OfType(ps: seq<Policy>, ltype: TypeId): seq<Policy> {
    if ps == [] then [] else
      var rest := OfType(ps[..|ps| - 1], ltype);
      if ps[|ps| - 1].ltype == ltype then rest + [ps[|ps| - 1]] else rest
  }

  /** Loading the policies of the one type only gives the same choice as loading them all. */
  lemma {:induction false} PickPolicyFromType(ps: seq<Policy>, ltype: TypeId, grade: Option<string>, months: nat)
    ensures PickPolicy(OfType(ps, ltype), ltype, grade, months) == PickPolicy(ps, ltype, grade, months)
  {
    if ps != [] {
      PickPolicyFromType(ps[..|ps| - 1], ltype, grade, months);
      var rest := OfType(ps[..|ps| - 1], ltype);
      assert (rest + [ps[|ps| - 1]])[..|rest|] == rest;
    }
  }

  // ---- carry-over expiry ----

  function CarryOverExpiry(year: int, months: int): Option<Date> {
    if months <= 0 then None else Some(Ymd(year + months / 12, months % 12 + 1, 1))
  }

  /** A carry-over can fall due within its own year exactly when its policy grants 1 to 11 months. */
  lemma CarryOverFallsDueInYear(year: int, months: int, asOf: Date)
    requires Year(asOf) == year
    ensures var due := CarryOverExpiry(year, months);
            due.Some? && due.value <= asOf <==> 1 <= months <= 11 && Ymd(year, months + 1, 1) <= asOf
  {
    hide Year, DaysBeforeYear;
    YearBounds(asOf);
    if months >= 12 {
      YearsIncrease(year + 1, year + months / 12);
    }
  }

  // ---- request checks ----

  function CheckRange(start: Date, end: Date): Option<Violation> {
    if end < start then Some(InvalidDateRange)
    else if Year(start) != Year(end) then Some(CrossYear)
    else if end - start + 1 > MAX_REQUEST_SPAN_DAYS then Some(RangeTooLong)
    else None
  }

  function CheckNotice(start: Date, today: Date, minNotice: int, allowBackdated: bool): Option<Violation> {
    if start < today && !allowBackdated then Some(StartInPast)
    else if start >= today && start - today < minNotice then Some(InsufficientNotice)
    else None
  }

  /** Plain intersection of two date ranges. */
  predicate Intersects(s: Date, e: Date, start: Date, end: Date) { s <= end && e >= start }

  /** The query's test, with its extra lower bound on the start date. */
  predicate Overlaps(s: Date, e: Date, start: Date, end: Date) {
    s <= end && e >= start && s > start - MAX_REQUEST_SPAN_DAYS
  }

  /** The lower bound changes nothing, whatever the range asked for, iff the stored span is in its limit. */
  lemma OverlapTestExact(s: Date, e: Date)
    requires s <= e
    ensures (forall start, end :: start <= end ==> (Overlaps(s, e, start, end) <==> Intersects(s, e, start, end)))
            <==> e - s < MAX_REQUEST_SPAN_DAYS
  {
    if e - s >= MAX_REQUEST_SPAN_DAYS {
      assert Intersects(s, e, e, e) && !Overlaps(s, e, e, e);
    }
  }
}
