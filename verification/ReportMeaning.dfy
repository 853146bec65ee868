/** What a report specification asks for, read directly, and that the compiled statement gives it. */
module ReportMeaning {
  import opened Common
  import opened Calendar
  import LikePattern
  import opened ReportSql
  import opened ReportQuery

  // ---- typed values and rows ----

  predicate HasType(v: Value, ctype: ColumnType) {
    match ctype
    case TextType | EnumType => v.Text?
    case NumberType => v.Number?
    case DateType => v.Day?
    case DateTimeType => v.Instant?
    case BooleanType => v.Flag?
  }

  /** The adapters give values of the type asked for. */
  ghost predicate GivesTyped(adapt: Adapter) {
    forall ctype, raw :: adapt(ctype, raw).Some? ==> HasType(adapt(ctype, raw).value, ctype)
  }

  /** The view has the columns of the catalog: each cell is null or of its column's type. */
  ghost predicate Fits(ds: Dataset, rows: seq<Row>) {
    forall i, k :: 0 <= i < |rows| && FindColumn(ds.columns, k).Some? ==>
      Cell(rows[i], k).Null? || HasType(Cell(rows[i], k), FindColumn(ds.columns, k).value.ctype)
  }

  // ---- which rows are wanted ----

  predicate AtMost(db: Db, a: Value, b: Value) { a == b || Less(db, a, b) }

  /** One value beside a cell that is not null. */
  predicate Compares(db: Db, op: Op, cell: Value, v: Value) {
    match op
    case Eq => cell == v
    case Ne => cell != v
    case Gt => Less(db, v, cell)
    case Gte => AtMost(db, v, cell)
    case Lt => Less(db, cell, v)
    case Lte => AtMost(db, cell, v)
    case Containing => v.Text? && cell.Text? && LikePattern.Contains(cell.text, v.text, db.fold)
    case StartingWith => v.Text? && cell.Text? && LikePattern.StartsWith(cell.text, v.text, db.fold)
    case _ => false
  }

  /** One of the values given is the cell's. */
  predicate IsGiven(adapt: Adapter, col: ColumnDef, items: seq<Raw>, cell: Value) {
    exists i :: 0 <= i < |items| && adapt(col.ctype, items[i]) == Some(cell)
  }

  /** A filter, read directly; only `is_null` accepts a null cell. */
  predicate FilterHolds(db: Db, adapt: Adapter, col: ColumnDef, flt: Filter, cell: Value)
    requires FilterCondition(adapt, col, flt).Ok?
  {
    if flt.op.Empty? then cell.Null?
    else if cell.Null? then false
    else if flt.op.NotEmpty? then true
    else if flt.op.AnyOf? then IsGiven(adapt, col, flt.value.items, cell)
    else if flt.op.NoneOf? then !IsGiven(adapt, col, flt.value.items, cell)
    else if flt.op.InRange? then
      AtMost(db, adapt(col.ctype, flt.value.items[0]).value, cell)
      && AtMost(db, cell, adapt(col.ctype, flt.value.items[1]).value)
    else Compares(db, flt.op, cell, adapt(col.ctype, flt.value).value)
  }

  /** What is read is what the adapter gives. */
  lemma CoercedIsAdapted(adapt: Adapter, col: ColumnDef, raw: Raw)
    requires Coerce(adapt, col, raw).Some?
    ensures Coerce(adapt, col, raw) == adapt(col.ctype, raw)
  {}

  lemma CoercedIsTyped(adapt: Adapter, col: ColumnDef, raw: Raw)
    requires GivesTyped(adapt) && Coerce(adapt, col, raw).Some?
    ensures HasType(Coerce(adapt, col, raw).value, col.ctype)
  {}

  lemma {:induction false} AnyEqualMeans(db: Db, a: Value, values: seq<Value>)
    requires forall v :: v in values ==> !v.Null?
    ensures AnyEqual(db, a, values) ==
            if values == [] then IsFalse else if a.Null? then IsUnknown else Truly(a in values)
  {
    if values != [] {
      var rest, last := values[..|values| - 1], values[|values| - 1];
      AnyEqualMeans(db, a, rest);
      assert values == rest + [last];
    }
  }

  /** The condition of a filter is true of exactly the rows the filter means. */
  lemma FilterMeansIt(db: Db, adapt: Adapter, col: ColumnDef, flt: Filter, r: Row)
    requires GivesTyped(adapt) && FilterCondition(adapt, col, flt).Ok?
    ensures Holds(db, FilterCondition(adapt, col, flt).value, r).IsTrue? <==>
            FilterHolds(db, adapt, col, flt, Cell(r, col.key))
  {
    hide LikePattern.Contains, LikePattern.StartsWith, Coerce, CoerceAll, GivesTyped, LikePattern.EscapeLike;
    hide LikePattern.Like, AnyEqual;
    if flt.op in {AnyOf, NoneOf, InRange} {
      var values := CoerceAll(adapt, col, flt.value.items).value;
      forall i | 0 <= i < |values|
        ensures !values[i].Null? && adapt(col.ctype, flt.value.items[i]) == Some(values[i])
      {
        CoercedIsTyped(adapt, col, flt.value.items[i]);
        CoercedIsAdapted(adapt, col, flt.value.items[i]);
      }
      AnyEqualMeans(db, Cell(r, col.key), values);
    } else if flt.op != Empty && flt.op != NotEmpty {
      CoercedIsTyped(adapt, col, flt.value);
      CoercedIsAdapted(adapt, col, flt.value);
      var v, cell := Coerce(adapt, col, flt.value).value, Cell(r, col.key);
      if v.Text? && cell.Text? {
        LikePattern.ContainsIsExact(cell.text, v.text, db.fold);
        LikePattern.StartsWithIsExact(cell.text, v.text, db.fold);
      }
    }
  }

  /** A row of the tenant that satisfies every filter, and, when no filter names the period column, of this year. */
  predicate Wanted(db: Db, ds: Dataset, spec: Spec, tenant: nat, today: Date, adapt: Adapter, r: Row)
    requires FilterConditions(ds, adapt, spec.filters).Ok?
  {
    && r.tenant == tenant
    && (forall i :: 0 <= i < |spec.filters| ==> FilterWanted(db, ds, adapt, spec.filters[i], r))
    && (ds.period.Some? && (forall flt :: flt in spec.filters ==> flt.column != ds.period.value) ==>
         InThisYear(Cell(r, ds.period.value), today))
  }

  predicate FilterWanted(db: Db, ds: Dataset, adapt: Adapter, flt: Filter, r: Row)
    requires ColumnFilter(ds, adapt, flt).Ok?
  {
    FilterHolds(db, adapt, FindColumn(ds.columns, flt.column).value, flt, Cell(r, flt.column))
  }

  predicate InThisYear(cell: Value, today: Date) { cell.Day? && Year(cell.day) == Year(today) }

  lemma PeriodMeansIt(db: Db, key: string, today: Date, r: Row)
    ensures Holds(db, Between(key, Day(JanFirst(Year(today))), Day(DecLast(Year(today)))), r).IsTrue? <==>
            InThisYear(Cell(r, key), today)
  {
    hide Year, DaysBeforeYear;
    if Cell(r, key).Day? { InYear(Cell(r, key).day, Year(today)); }
  }

  function AllConditions(ds: Dataset, spec: Spec, tenant: nat, today: Date, adapt: Adapter): seq<Condition>
    requires FilterConditions(ds, adapt, spec.filters).Ok?
  {
    [OfTenant(tenant)] + FilterConditions(ds, adapt, spec.filters).value + PeriodConditions(ds, spec, today)
  }

  lemma KeptIffWanted(db: Db, ds: Dataset, spec: Spec, tenant: nat, today: Date, adapt: Adapter, r: Row)
    requires GivesTyped(adapt) && FilterConditions(ds, adapt, spec.filters).Ok?
    ensures KeepsRow(db, AllConditions(ds, spec, tenant, today, adapt), r) <==>
            Wanted(db, ds, spec, tenant, today, adapt, r)
  {
    hide KeepsRow, GivesTyped, FilterWanted, InThisYear, FilterConditions;
    FiltersMeanIt(db, ds, spec, adapt, r);
    assert KeepsRow(db, PeriodConditions(ds, spec, today), r) <==>
           (PeriodUnfiltered(ds, spec) ==> InThisYear(Cell(r, ds.period.value), today)) by {
      PeriodsMeanIt(db, ds, spec, today, r);
    }
    KeepsParts(db, tenant, FilterConditions(ds, adapt, spec.filters).value, PeriodConditions(ds, spec, today), r);
  }

  lemma FiltersMeanIt(db: Db, ds: Dataset, spec: Spec, adapt: Adapter, r: Row)
    requires GivesTyped(adapt) && FilterConditions(ds, adapt, spec.filters).Ok?
    ensures KeepsRow(db, FilterConditions(ds, adapt, spec.filters).value, r) <==>
            forall i :: 0 <= i < |spec.filters| ==> FilterWanted(db, ds, adapt, spec.filters[i], r)
  {
    hide Holds, GivesTyped, FilterHolds, FilterCondition;
    var filters := FilterConditions(ds, adapt, spec.filters).value;
    forall i | 0 <= i < |filters|
      ensures Holds(db, filters[i], r).IsTrue? <==> FilterWanted(db, ds, adapt, spec.filters[i], r)
    {
      assert ColumnFilter(ds, adapt, spec.filters[i]) == Ok(filters[i]);
      FilterMeansIt(db, adapt, FindColumn(ds.columns, spec.filters[i].column).value, spec.filters[i], r);
    }
  }

  lemma PeriodsMeanIt(db: Db, ds: Dataset, spec: Spec, today: Date, r: Row)
    ensures KeepsRow(db, PeriodConditions(ds, spec, today), r) <==>
            (PeriodUnfiltered(ds, spec) ==> InThisYear(Cell(r, ds.period.value), today))
  {
    hide Holds, InThisYear, Year;
    if PeriodUnfiltered(ds, spec) {
      PeriodMeansIt(db, ds.period.value, today, r);
      assert PeriodConditions(ds, spec, today)[0] ==
             Between(ds.period.value, Day(JanFirst(Year(today))), Day(DecLast(Year(today))));
    }
  }

  lemma KeepsParts(db: Db, tenant: nat, filters: seq<Condition>, period: seq<Condition>, r: Row)
    ensures KeepsRow(db, [OfTenant(tenant)] + filters + period, r) <==>
            r.tenant == tenant && KeepsRow(db, filters, r) && KeepsRow(db, period, r)
  {
    var all := [OfTenant(tenant)] + filters + period;
    assert Holds(db, all[0], r).IsTrue? <==> r.tenant == tenant;
    assert forall i :: 0 <= i < |filters| ==> all[1 + i] == filters[i];
    assert forall i :: 0 <= i < |period| ==> all[1 + |filters| + i] == period[i];
  }

  function WantedRows(db: Db, ds: Dataset, spec: Spec, tenant: nat, today: Date, adapt: Adapter,
                      view: seq<Row>): seq<Row>
    requires FilterConditions(ds, adapt, spec.filters).Ok?
  {
    if view == [] then [] else
      var rest := WantedRows(db, ds, spec, tenant, today, adapt, view[..|view| - 1]);
      if Wanted(db, ds, spec, tenant, today, adapt, view[|view| - 1]) then rest + [view[|view| - 1]] else rest
  }

  lemma {:induction false} WhereIsWanted(db: Db, ds: Dataset, spec: Spec, tenant: nat, today: Date, adapt: Adapter,
                                         view: seq<Row>)
    requires GivesTyped(adapt) && FilterConditions(ds, adapt, spec.filters).Ok?
    ensures Where(db, AllConditions(ds, spec, tenant, today, adapt), view) ==
            WantedRows(db, ds, spec, tenant, today, adapt, view)
  {
    hide KeepsRow, Wanted, GivesTyped, AllConditions;
    if view != [] {
      WhereIsWanted(db, ds, spec, tenant, today, adapt, view[..|view| - 1]);
      KeptIffWanted(db, ds, spec, tenant, today, adapt, view[|view| - 1]);
    }
  }

  lemma {:induction false} WantedAreFromView(db: Db, ds: Dataset, spec: Spec, tenant: nat, today: Date,
                                             adapt: Adapter, view: seq<Row>)
    requires FilterConditions(ds, adapt, spec.filters).Ok?
    ensures forall r :: r in WantedRows(db, ds, spec, tenant, today, adapt, view) <==>
            r in view && Wanted(db, ds, spec, tenant, today, adapt, r)
  {
    hide Wanted;
    if view != [] {
      var rest, last := view[..|view| - 1], view[|view| - 1];
      WantedAreFromView(db, ds, spec, tenant, today, adapt, rest);
      assert forall r :: r in view <==> r in rest || r == last;
    }
  }
}
