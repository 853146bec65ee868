/** Exactly which report specifications the compiler accepts. */
module ReportAcceptance {
  import opened Common
  import opened Calendar
  import opened ReportQuery
  import opened ReportAnswer

  predicate Known(ds: Dataset, key: string) { exists c :: c in ds.columns && c.key == key }

  lemma KnownIff(ds: Dataset, key: string)
    ensures Known(ds, key) <==> FindColumn(ds.columns, key).Some?
  {}

  // ---- the catalog of operators, by operator ----

  predicate HasOrder(ctype: ColumnType) { ctype.NumberType? || ctype.DateType? || ctype.DateTimeType? }

  /** Null is asked for everywhere; order and ranges where there is one; equality but of moments; unlike also of truth
      values; lists of texts, choices and numbers; parts of texts. */
  predicate OperatorFits(op: Op, ctype: ColumnType) {
    match op
    case Empty | NotEmpty => true
    case Gt | Gte | Lt | Lte | InRange => HasOrder(ctype)
    case Eq => !ctype.DateTimeType?
    case Ne => !ctype.DateTimeType? && !ctype.BooleanType?
    case AnyOf | NoneOf => ctype.TextType? || ctype.EnumType? || ctype.NumberType?
    case Containing | StartingWith => ctype.TextType?
  }

  /** Everything is counted; the extremes are of what has an order, and sums and averages of numbers. */
  predicate FunctionFits(func: Func, ctype: ColumnType) {
    match func
    case FCount | FCountDistinct => true
    case FMin | FMax => HasOrder(ctype)
    case FSum | FAvg => ctype.NumberType?
  }

  lemma TablesAgree(ctype: ColumnType, op: Op, func: Func)
    ensures OpAllowed(ctype, op) <==> OperatorFits(op, ctype)
    ensures FuncAllowed(ctype, func) <==> FunctionFits(func, ctype)
  {}

  /** A value that is there, is of the column's type, and is one of the choices if the column has such. */
  predicate Readable(adapt: Adapter, col: ColumnDef, raw: Raw) {
    && !raw.Missing? && adapt(col.ctype, raw).Some?
    && (col.ctype.EnumType? ==>
         adapt(col.ctype, raw).value.Text? && adapt(col.ctype, raw).value.text in col.choices)
  }

  lemma ReadableIs(adapt: Adapter, col: ColumnDef, raw: Raw)
    ensures Coerce(adapt, col, raw).Some? <==> Readable(adapt, col, raw)
  {}

  /** The filter names a column its operator fits, with a value, or 1 to 100 values, of the column's type. */
  predicate FilterOk(ds: Dataset, adapt: Adapter, flt: Filter) {
    Known(ds, flt.column) &&
    var found := FindColumn(ds.columns, flt.column);
    found.Some? && OperatorFits(flt.op, found.value.ctype) && ValueOk(adapt, found.value, flt)
  }

  predicate ValueOk(adapt: Adapter, col: ColumnDef, flt: Filter) {
    match flt.op
    case Empty | NotEmpty => true
    case AnyOf | NoneOf => ListOk(adapt, col, flt.value, 1, 100)
    case InRange => ListOk(adapt, col, flt.value, 2, 2)
    case _ => Readable(adapt, col, flt.value)
  }

  predicate ListOk(adapt: Adapter, col: ColumnDef, raw: Raw, least: nat, most: nat) {
    raw.Many? && least <= |raw.items| <= most
    && forall i :: 0 <= i < |raw.items| ==> Readable(adapt, col, raw.items[i])
  }

  lemma FilterAccepted(ds: Dataset, adapt: Adapter, flt: Filter)
    ensures ColumnFilter(ds, adapt, flt).Ok? <==> FilterOk(ds, adapt, flt)
  {
    hide Coerce, CoerceAll, OpAllowed, FindColumn, Readable, OperatorFits;
    KnownIff(ds, flt.column);
    var found := FindColumn(ds.columns, flt.column);
    if found.Some? {
      TablesAgree(found.value.ctype, flt.op, FCount);
      forall raw ensures Coerce(adapt, found.value, raw).Some? <==> Readable(adapt, found.value, raw) {
        ReadableIs(adapt, found.value, raw);
      }
    }
  }

  predicate AggregateOk(ds: Dataset, agg: Aggregate) {
    if agg.column.None? then agg.func.FCount?
    else
      FindColumn(ds.columns, agg.column.value).Some?
      && FunctionFits(agg.func, FindColumn(ds.columns, agg.column.value).value.ctype)
  }

  function Width(spec: Spec): nat { |spec.columns| + |spec.aggregates| }

  predicate KeysDiffer(spec: Spec) {
    forall i, j :: 0 <= i < j < Width(spec) ==> ResultKey(spec, i) != ResultKey(spec, j)
  }

  predicate IsResultKey(spec: Spec, key: string) { exists i :: 0 <= i < Width(spec) && ResultKey(spec, i) == key }

  predicate WellFormed(catalog: map<string, Dataset>, spec: Spec, adapt: Adapter) {
    && spec.dataset in catalog
    && var ds := catalog[spec.dataset];
    && Width(spec) > 0
    && (forall i :: 0 <= i < |spec.columns| ==> Known(ds, spec.columns[i]))
    && (forall i :: 0 <= i < |spec.filters| ==> FilterOk(ds, adapt, spec.filters[i]))
    && (ds.period.Some? && (forall flt :: flt in spec.filters ==> flt.column != ds.period.value) ==>
         Known(ds, ds.period.value))
    && (forall i :: 0 <= i < |spec.aggregates| ==> AggregateOk(ds, spec.aggregates[i]))
    && KeysDiffer(spec)
    && (forall i :: 0 <= i < |spec.sort| ==> IsResultKey(spec, spec.sort[i].column))
  }

  lemma {:induction false} SelectAccepted(ds: Dataset, spec: Spec, dims: seq<ColumnDef>, n: nat)
    requires FindColumns(ds.columns, spec.columns) == Some(dims) && !HasDuplicates(spec.columns)
             && n <= |spec.aggregates|
    ensures Select(ds, dims, spec.aggregates[..n]).Ok? <==>
            (forall i :: 0 <= i < n ==> AggregateOk(ds, spec.aggregates[i]))
            && KeysDiffer(spec.(aggregates := spec.aggregates[..n]))
  {
    hide AggregateOf, AggregateOk, SelectedFor, ResultKey, FindColumns, IsResultKey, KeyIn;
    if n == 0 {
      assert spec.aggregates[..n] == [];
      NoAggregates(spec);
    } else {
      hide KeysDiffer;
      var before := spec.(aggregates := spec.aggregates[..n - 1]);
      assert spec.aggregates[..n][..n - 1] == spec.aggregates[..n - 1];
      SelectAccepted(ds, spec, dims, n - 1);
      OneMoreKey(spec, n);
      AggregateAccepted(ds, spec, n);
      if Select(ds, dims, before.aggregates).Ok? && AggregateOf(ds, spec.aggregates[n - 1]).Ok? {
        SelectIs(ds, spec, dims, n - 1);
        KeyInIff(ds, before, Select(ds, dims, before.aggregates).value,
                 AggregateOf(ds, spec.aggregates[n - 1]).value.item.key);
      }
    }
  }

  lemma NoAggregates(spec: Spec)
    requires !HasDuplicates(spec.columns)
    ensures KeysDiffer(spec.(aggregates := []))
  {}

  lemma AggregateAccepted(ds: Dataset, spec: Spec, n: nat)
    requires 0 < n <= |spec.aggregates|
    ensures var agg := spec.aggregates[n - 1];
            (AggregateOf(ds, agg).Ok? <==> AggregateOk(ds, agg))
            && (AggregateOf(ds, agg).Ok? ==>
                 AggregateOf(ds, agg).value.item.key ==
                   ResultKey(spec.(aggregates := spec.aggregates[..n]), |spec.columns| + n - 1))
  {
    hide FuncAllowed, FunctionFits;
    var agg := spec.aggregates[n - 1];
    if agg.column.Some? && FindColumn(ds.columns, agg.column.value).Some? {
      TablesAgree(FindColumn(ds.columns, agg.column.value).value.ctype, Eq, agg.func);
    }
  }

  lemma OneMoreKey(spec: Spec, n: nat)
    requires 0 < n <= |spec.aggregates|
    ensures var before := spec.(aggregates := spec.aggregates[..n - 1]);
            var part := spec.(aggregates := spec.aggregates[..n]);
            KeysDiffer(part) <==> KeysDiffer(before) && !IsResultKey(before, ResultKey(part, Width(before)))
  {
    var before, part := spec.(aggregates := spec.aggregates[..n - 1]), spec.(aggregates := spec.aggregates[..n]);
    assert forall i :: 0 <= i < Width(before) ==> ResultKey(before, i) == ResultKey(part, i);
  }

  lemma KeyInIff(ds: Dataset, spec: Spec, selected: seq<Selected>, key: string)
    requires SelectedFor(ds, spec, selected)
    ensures KeyIn(selected, key) <==> IsResultKey(spec, key)
  {
    forall i | 0 <= i < |selected| ensures selected[i].item.key == ResultKey(spec, i) {
      SelectedKeys(ds, spec, selected, i);
    }
  }

  lemma KeyInIndex(selected: seq<Selected>, key: string)
    ensures KeyIn(selected, key) <==> IndexOf(selected, key).Some?
  {}

  lemma ColumnKeysDiffer(spec: Spec)
    requires KeysDiffer(spec)
    ensures !HasDuplicates(spec.columns)
  {
    forall i, j | 0 <= i < j < |spec.columns| ensures spec.columns[i] != spec.columns[j] {
      assert ResultKey(spec, i) != ResultKey(spec, j);
    }
  }

  // ---- which error a specification gets ----

  function FilterError(ds: Dataset, flt: Filter): ReportError {
    var found := FindColumn(ds.columns, flt.column);
    if found.None? then UnknownColumn
    else if !OperatorFits(flt.op, found.value.ctype) then InvalidOperator
    else InvalidValue
  }

  lemma FilterErrorIs(ds: Dataset, adapt: Adapter, flt: Filter)
    ensures ColumnFilter(ds, adapt, flt).Ok? <==> FilterOk(ds, adapt, flt)
    ensures !FilterOk(ds, adapt, flt) ==> ColumnFilter(ds, adapt, flt) == Err(FilterError(ds, flt))
  {
    hide Coerce, CoerceAll, OpAllowed, FindColumn, OperatorFits, FilterOk;
    FilterAccepted(ds, adapt, flt);
    var found := FindColumn(ds.columns, flt.column);
    if found.Some? { TablesAgree(found.value.ctype, flt.op, FCount); }
  }

  /** The first filter that is not as it should be. */
  predicate FirstBadFilter(ds: Dataset, adapt: Adapter, filters: seq<Filter>, i: nat) {
    i < |filters| && !FilterOk(ds, adapt, filters[i]) && forall j :: 0 <= j < i ==> FilterOk(ds, adapt, filters[j])
  }

  lemma {:induction false} FiltersFailAtFirst(ds: Dataset, adapt: Adapter, filters: seq<Filter>)
    ensures FilterConditions(ds, adapt, filters).Ok? <==>
            forall i :: 0 <= i < |filters| ==> FilterOk(ds, adapt, filters[i])
    ensures FilterConditions(ds, adapt, filters).Err? ==>
              exists i: nat :: FirstBadFilter(ds, adapt, filters, i)
                               && FilterConditions(ds, adapt, filters) == Err(FilterError(ds, filters[i]))
  {
    hide ColumnFilter, FilterOk, FilterError;
    if filters != [] {
      var n := |filters| - 1;
      var rest := filters[..n];
      FiltersFailAtFirst(ds, adapt, rest);
      FilterErrorIs(ds, adapt, filters[n]);
      if FilterConditions(ds, adapt, rest).Err? {
        var i: nat :| FirstBadFilter(ds, adapt, rest, i)
                      && FilterConditions(ds, adapt, rest) == Err(FilterError(ds, rest[i]));
        assert FirstBadFilter(ds, adapt, filters, i);
      } else if FilterConditions(ds, adapt, filters).Err? {
        assert FirstBadFilter(ds, adapt, filters, n);
      }
    }
  }

  /** The error of an aggregate that cannot be, or whose key another result has. */
  function AggregateError(ds: Dataset, agg: Aggregate): ReportError {
    if agg.column.None? then (if agg.func.FCount? then DuplicateColumn else InvalidAggregate)
    else if FindColumn(ds.columns, agg.column.value).None? then UnknownColumn
    else if !FunctionFits(agg.func, FindColumn(ds.columns, agg.column.value).value.ctype) then InvalidAggregate
    else DuplicateColumn
  }

  /** The aggregate fits the catalog and its result has a key no result before it has. */
  predicate AggregateFits(ds: Dataset, spec: Spec, n: nat)
    requires n < |spec.aggregates|
  {
    AggregateOk(ds, spec.aggregates[n])
    && forall i :: 0 <= i < |spec.columns| + n ==> ResultKey(spec, i) != ResultKey(spec, |spec.columns| + n)
  }

  predicate FirstBadAggregate(ds: Dataset, spec: Spec, n: nat) {
    n < |spec.aggregates| && !AggregateFits(ds, spec, n) && forall j :: 0 <= j < n ==> AggregateFits(ds, spec, j)
  }

  lemma AggregateErrorIs(ds: Dataset, agg: Aggregate)
    ensures AggregateOf(ds, agg).Ok? <==> AggregateOk(ds, agg)
    ensures !AggregateOk(ds, agg) ==> AggregateOf(ds, agg) == Err(AggregateError(ds, agg))
    ensures AggregateOk(ds, agg) ==> AggregateError(ds, agg) == DuplicateColumn
  {
    hide FuncAllowed, FunctionFits, FindColumn;
    if agg.column.Some? && FindColumn(ds.columns, agg.column.value).Some? {
      TablesAgree(FindColumn(ds.columns, agg.column.value).value.ctype, Eq, agg.func);
    }
  }

  lemma KeyTaken(ds: Dataset, spec: Spec, dims: seq<ColumnDef>, n: nat)
    requires FindColumns(ds.columns, spec.columns) == Some(dims) && !HasDuplicates(spec.columns)
    requires n < |spec.aggregates| && Select(ds, dims, spec.aggregates[..n]).Ok? && AggregateOk(ds, spec.aggregates[n])
    ensures AggregateOf(ds, spec.aggregates[n]).Ok?
    ensures KeyIn(Select(ds, dims, spec.aggregates[..n]).value, AggregateOf(ds, spec.aggregates[n]).value.item.key) <==>
            !AggregateFits(ds, spec, n)
  {
    hide AggregateOf, AggregateOk, SelectedFor, ResultKey, FindColumns, IsResultKey, KeyIn, HasDuplicates, Select;
    var before := spec.(aggregates := spec.aggregates[..n]);
    SelectIs(ds, spec, dims, n);
    AggregateAccepted(ds, spec, n + 1);
    KeyInIff(ds, before, Select(ds, dims, spec.aggregates[..n]).value, ResultKey(spec, |spec.columns| + n));
    KeyBefore(spec, n);
  }

  /** The aggregate after some that fit. */
  lemma NextAggregate(ds: Dataset, spec: Spec, dims: seq<ColumnDef>, n: nat)
    requires FindColumns(ds.columns, spec.columns) == Some(dims) && !HasDuplicates(spec.columns)
    requires n < |spec.aggregates| && Select(ds, dims, spec.aggregates[..n]).Ok?
    ensures Select(ds, dims, spec.aggregates[..n + 1]).Ok? <==> AggregateFits(ds, spec, n)
    ensures !AggregateFits(ds, spec, n) ==>
              Select(ds, dims, spec.aggregates[..n + 1]) == Err(AggregateError(ds, spec.aggregates[n]))
  {
    hide AggregateOf, SelectedFor, ResultKey, FindColumns, KeyIn, HasDuplicates, Select, AggregateError, AggregateFits;
    assert spec.aggregates[..n + 1][..n] == spec.aggregates[..n];
    AggregateErrorIs(ds, spec.aggregates[n]);
    OneMoreSelect(ds, dims, spec.aggregates[..n + 1]);
    if AggregateOk(ds, spec.aggregates[n]) { KeyTaken(ds, spec, dims, n); } else { NotFitting(ds, spec, n); }
  }

  lemma NotFitting(ds: Dataset, spec: Spec, n: nat)
    requires n < |spec.aggregates| && !AggregateOk(ds, spec.aggregates[n])
    ensures !AggregateFits(ds, spec, n)
  {}

  lemma KeyBefore(spec: Spec, n: nat)
    requires n < |spec.aggregates|
    ensures var before := spec.(aggregates := spec.aggregates[..n]);
            IsResultKey(before, ResultKey(spec, |spec.columns| + n)) <==>
            exists i :: 0 <= i < |spec.columns| + n && ResultKey(spec, i) == ResultKey(spec, |spec.columns| + n)
    ensures ResultKey(spec.(aggregates := spec.aggregates[..n + 1]), |spec.columns| + n) ==
            ResultKey(spec, |spec.columns| + n)
  {
    var before := spec.(aggregates := spec.aggregates[..n]);
    assert forall i :: 0 <= i < |spec.columns| + n ==> ResultKey(before, i) == ResultKey(spec, i);
  }

  lemma OneMoreSelect(ds: Dataset, dims: seq<ColumnDef>, aggs: seq<Aggregate>)
    requires aggs != []
    ensures Select(ds, dims, aggs) ==
            var rest := Select(ds, dims, aggs[..|aggs| - 1]);
            if rest.Err? then rest else
              var last := AggregateOf(ds, aggs[|aggs| - 1]);
              if last.Err? then Err(last.error)
              else if KeyIn(rest.value, last.value.item.key) then Err(DuplicateColumn)
              else Ok(rest.value + [last.value])
  {}

  lemma {:induction false} AggregatesFailAtFirst(ds: Dataset, spec: Spec, dims: seq<ColumnDef>, n: nat)
    requires FindColumns(ds.columns, spec.columns) == Some(dims) && !HasDuplicates(spec.columns)
    requires n <= |spec.aggregates|
    ensures Select(ds, dims, spec.aggregates[..n]).Ok? <==> forall j :: 0 <= j < n ==> AggregateFits(ds, spec, j)
    ensures Select(ds, dims, spec.aggregates[..n]).Err? ==>
              exists i: nat :: i < n && FirstBadAggregate(ds, spec, i)
                && Select(ds, dims, spec.aggregates[..n]) == Err(AggregateError(ds, spec.aggregates[i]))
  {
    hide AggregateFits, AggregateError, FindColumns, HasDuplicates, Select;
    if n == 0 {
      assert spec.aggregates[..n] == [];
      NothingSelected(ds, dims);
    } else {
      AggregatesFailAtFirst(ds, spec, dims, n - 1);
      assert spec.aggregates[..n][..n - 1] == spec.aggregates[..n - 1];
      OneMoreSelect(ds, dims, spec.aggregates[..n]);
      if Select(ds, dims, spec.aggregates[..n - 1]).Ok? {
        NextAggregate(ds, spec, dims, n - 1);
        if !AggregateFits(ds, spec, n - 1) { assert FirstBadAggregate(ds, spec, n - 1); }
      } else {
        var i: nat :| i < n - 1 && FirstBadAggregate(ds, spec, i)
          && Select(ds, dims, spec.aggregates[..n - 1]) == Err(AggregateError(ds, spec.aggregates[i]));
        assert !AggregateFits(ds, spec, i);
      }
    }
  }

  lemma NothingSelected(ds: Dataset, dims: seq<ColumnDef>)
    ensures Select(ds, dims, []).Ok?
  {}

  predicate AllKnown(ds: Dataset, keys: seq<string>) { forall i :: 0 <= i < |keys| ==> Known(ds, keys[i]) }

  lemma AllKnownIs(ds: Dataset, keys: seq<string>)
    ensures AllKnown(ds, keys) <==> FindColumns(ds.columns, keys).Some?
  {
    hide FindColumn, FindColumns;
    forall key ensures Known(ds, key) <==> FindColumn(ds.columns, key).Some? { KnownIff(ds, key); }
  }

  predicate FiltersOk(ds: Dataset, adapt: Adapter, spec: Spec) {
    forall i :: 0 <= i < |spec.filters| ==> FilterOk(ds, adapt, spec.filters[i])
  }

  predicate AggregatesFit(ds: Dataset, spec: Spec) {
    forall i :: 0 <= i < |spec.aggregates| ==> AggregateFits(ds, spec, i)
  }

  predicate PeriodOpen(ds: Dataset, spec: Spec) {
    ds.period.Some? && forall flt :: flt in spec.filters ==> flt.column != ds.period.value
  }

  /** A specification that is not well formed gets the error of the first thing wrong: the dataset, the columns, the
      filters in their order, the period column, the aggregates in their order, and the sorts. */
  lemma RejectsAtFirst(catalog: map<string, Dataset>, spec: Spec, tenant: nat, today: Date, adapt: Adapter)
    ensures var c := CompileQuery(catalog, spec, tenant, today, adapt);
            if spec.dataset !in catalog then c == Err(UnknownDataset)
            else
              var ds := catalog[spec.dataset];
              if |spec.columns| + |spec.aggregates| == 0 then c == Err(NoColumns)
              else if exists i, j :: 0 <= i < j < |spec.columns| && spec.columns[i] == spec.columns[j] then
                c == Err(DuplicateColumn)
              else if !AllKnown(ds, spec.columns) then c == Err(UnknownColumn)
              else if !FiltersOk(ds, adapt, spec) then
                exists i: nat :: FirstBadFilter(ds, adapt, spec.filters, i)
                  && c == Err(FilterError(ds, spec.filters[i]))
              else if PeriodOpen(ds, spec) && !Known(ds, ds.period.value) then c == Err(UnknownColumn)
              else if !AggregatesFit(ds, spec) then
                exists i: nat :: FirstBadAggregate(ds, spec, i) && c == Err(AggregateError(ds, spec.aggregates[i]))
              else if exists i :: 0 <= i < |spec.sort| && !IsResultKey(spec, spec.sort[i].column)
              then c == Err(InvalidSort)
              else c.Ok?
  {
    hide FilterConditions, Select, OrderOf, FindColumns, FindColumn, Year, FilterOk, AggregateFits, Known, IsResultKey;
    hide FirstBadFilter, FirstBadAggregate, AggregateError, FilterError;
    if spec.dataset in catalog {
      var ds := catalog[spec.dataset];
      AllKnownIs(ds, spec.columns);
      FiltersFailAtFirst(ds, adapt, spec.filters);
      if ds.period.Some? { KnownIff(ds, ds.period.value); }
      assert PeriodOpen(ds, spec) <==> PeriodUnfiltered(ds, spec);
      if AllKnown(ds, spec.columns) && !HasDuplicates(spec.columns) {
        var dims := FindColumns(ds.columns, spec.columns).value;
        assert spec.aggregates[..|spec.aggregates|] == spec.aggregates;
        AggregatesFailAtFirst(ds, spec, dims, |spec.aggregates|);
        if Select(ds, dims, spec.aggregates).Ok? { SortsFail(ds, spec, dims); }
      }
    }
  }

  lemma SortsFail(ds: Dataset, spec: Spec, dims: seq<ColumnDef>)
    requires FindColumns(ds.columns, spec.columns) == Some(dims) && !HasDuplicates(spec.columns)
    requires Select(ds, dims, spec.aggregates).Ok?
    ensures var order := OrderOf(Select(ds, dims, spec.aggregates).value, spec.sort);
            (order.Ok? <==> forall i :: 0 <= i < |spec.sort| ==> IsResultKey(spec, spec.sort[i].column))
            && (order.Err? ==> order == Err(InvalidSort))
  {
    hide FindColumns, HasDuplicates, Select, OrderOf, IsResultKey, KeyIn, SelectedFor, IndexOf;
    assert spec.aggregates[..|spec.aggregates|] == spec.aggregates;
    SelectIs(ds, spec, dims, |spec.aggregates|);
    var selected := Select(ds, dims, spec.aggregates).value;
    forall key ensures IndexOf(selected, key).Some? <==> IsResultKey(spec, key) {
      KeyInIff(ds, spec, selected, key);
      KeyInIndex(selected, key);
    }
  }

  /** The compiler accepts a specification iff it is well formed. */
  lemma AcceptsExactly(catalog: map<string, Dataset>, spec: Spec, tenant: nat, today: Date, adapt: Adapter)
    ensures CompileQuery(catalog, spec, tenant, today, adapt).Ok? <==> WellFormed(catalog, spec, adapt)
  {
    hide FilterConditions, Select, OrderOf, FindColumns, FindColumn, Year, FilterOk, AggregateOk, Known, IsResultKey;
    hide KeysDiffer, HasDuplicates;
    if KeysDiffer(spec) { ColumnKeysDiffer(spec); }
    if spec.dataset in catalog {
      var ds := catalog[spec.dataset];
      AllKnownIs(ds, spec.columns);
      FiltersFailAtFirst(ds, adapt, spec.filters);
      if ds.period.Some? { KnownIff(ds, ds.period.value); }
      assert PeriodOpen(ds, spec) <==> PeriodUnfiltered(ds, spec);
      if AllKnown(ds, spec.columns) && !HasDuplicates(spec.columns) {
        var dims := FindColumns(ds.columns, spec.columns).value;
        assert spec.aggregates[..|spec.aggregates|] == spec.aggregates;
        SelectAccepted(ds, spec, dims, |spec.aggregates|);
        if Select(ds, dims, spec.aggregates).Ok? { SortsFail(ds, spec, dims); }
      }
    }
  }
}
