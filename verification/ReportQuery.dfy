/** The compiler from report specifications to statements (backend/app/reports/query.py,
    backend/app/reports/catalog.py). */
module ReportQuery {
  import opened Common
  import opened Calendar
  import LikePattern
  import opened ReportSql

  // ---- catalog and specification ----

  datatype ColumnType = TextType | EnumType | NumberType | DateType | DateTimeType | BooleanType

  datatype ColumnDef = ColumnDef(key: string, ctype: ColumnType, choices: seq<string>)

  datatype Dataset = Dataset(columns: seq<ColumnDef>, period: Option<string>)

  datatype Op = Eq | Ne | Gt | Gte | Lt | Lte | InRange | AnyOf | NoneOf | Containing | StartingWith | Empty | NotEmpty

  /** A filter value as it came: nothing, one JSON value, or a list. */
  datatype Raw = Missing | One(json: string) | Many(items: seq<Raw>)

  datatype Func = FCount | FCountDistinct | FSum | FAvg | FMin | FMax

  datatype Filter = Filter(column: string, op: Op, value: Raw)

  datatype Aggregate = Aggregate(func: Func, column: Option<string>)

  datatype Sort = Sort(column: string, descending: bool)

  datatype Spec = Spec(dataset: string, columns: seq<string>, filters: seq<Filter>, aggregates: seq<Aggregate>,
                       sort: seq<Sort>)

  datatype ReportError = UnknownDataset | NoColumns | DuplicateColumn | UnknownColumn | InvalidOperator | InvalidValue
                       | InvalidAggregate | InvalidSort

  datatype ResultColumn = ResultColumn(key: string, ctype: ColumnType)

  datatype Compiled = Compiled(stmt: Stmt, columns: seq<ResultColumn>, sources: seq<Option<ColumnDef>>)

  const MAX_IN_VALUES: nat := 100

  /** Reading one value as a column type: the value adapters, which give no null. */
  type Adapter = (ColumnType, Raw) -> Option<Value>

  predicate OpAllowed(ctype: ColumnType, op: Op) {
    match ctype
    case TextType => op in {Eq, Ne, AnyOf, NoneOf, Containing, StartingWith, Empty, NotEmpty}
    case EnumType => op in {Eq, Ne, AnyOf, NoneOf, Empty, NotEmpty}
    case NumberType => op in {Eq, Ne, Gt, Gte, Lt, Lte, InRange, AnyOf, NoneOf, Empty, NotEmpty}
    case DateType => op in {Eq, Ne, Gt, Gte, Lt, Lte, InRange, Empty, NotEmpty}
    case DateTimeType => op in {Gt, Gte, Lt, Lte, InRange, Empty, NotEmpty}
    case BooleanType => op in {Eq, Empty, NotEmpty}
  }

  predicate FuncAllowed(ctype: ColumnType, func: Func) {
    match ctype
    case NumberType => true
    case DateType | DateTimeType => func in {FCount, FCountDistinct, FMin, FMax}
    case _ => func in {FCount, FCountDistinct}
  }

  /** `Dataset.column` */
  function FindColumn(columns: seq<ColumnDef>, key: string): (r: Option<ColumnDef>)
    ensures r.Some? ==> r.value in columns && r.value.key == key
    ensures r.None? ==> forall c :: c in columns ==> c.key != key
  {
    if columns == [] then None else if columns[0].key == key then Some(columns[0]) else FindColumn(columns[1..], key)
  }

  function FindColumns(columns: seq<ColumnDef>, keys: seq<string>): (r: Option<seq<ColumnDef>>)
    ensures r.Some? ==>
            |r.value| == |keys| && forall i :: 0 <= i < |keys| ==> FindColumn(columns, keys[i]) == Some(r.value[i])
    ensures r.None? ==> exists i :: 0 <= i < |keys| && FindColumn(columns, keys[i]).None?
  {
    if keys == [] then Some([]) else
      var rest, last := FindColumns(columns, keys[..|keys| - 1]), FindColumn(columns, keys[|keys| - 1]);
      if rest.None? || last.None? then None else Some(rest.value + [last.value])
  }

  // ---- filters ----

  /** `_coerce` */
  function Coerce(adapt: Adapter, col: ColumnDef, raw: Raw): Option<Value> {
    if raw.Missing? then None else
      var v := adapt(col.ctype, raw);
      if v.Some? && col.ctype.EnumType? && !(v.value.Text? && v.value.text in col.choices) then None else v
  }

  function CoerceAll(adapt: Adapter, col: ColumnDef, raws: seq<Raw>): (r: Option<seq<Value>>)
    ensures r.Some? ==>
            |r.value| == |raws| && forall i :: 0 <= i < |raws| ==> Coerce(adapt, col, raws[i]) == Some(r.value[i])
    ensures r.None? ==> exists i :: 0 <= i < |raws| && Coerce(adapt, col, raws[i]).None?
  {
    if raws == [] then Some([]) else
      var rest, last := CoerceAll(adapt, col, raws[..|raws| - 1]), Coerce(adapt, col, raws[|raws| - 1]);
      if rest.None? || last.None? then None else Some(rest.value + [last.value])
  }

  function ComparisonOf(op: Op): Comparison
    requires op in {Eq, Ne, Gt, Gte, Lt, Lte}
  {
    match op
    case Eq => Equal
    case Ne => NotEqual
    case Gt => Greater
    case Gte => GreaterOrEqual
    case Lt => Smaller
    case Lte => SmallerOrEqual
  }

  function TextOf(v: Value): string { if v.Text? then v.text else "" }

  /** `_filter_expr` */
  function FilterCondition(adapt: Adapter, col: ColumnDef, flt: Filter): Result<Condition, ReportError> {
    if !OpAllowed(col.ctype, flt.op) then Err(InvalidOperator)
    else if flt.op.Empty? then Ok(IsNull(col.key))
    else if flt.op.NotEmpty? then Ok(IsNotNull(col.key))
    else if flt.op in {AnyOf, NoneOf, InRange} then
      if !flt.value.Many? || flt.value.items == [] then Err(InvalidValue)
      else if flt.op.InRange? && |flt.value.items| != 2 then Err(InvalidValue)
      else if |flt.value.items| > MAX_IN_VALUES then Err(InvalidValue)
      else
        var values := CoerceAll(adapt, col, flt.value.items);
        if values.None? then Err(InvalidValue)
        else if flt.op.InRange? then Ok(Between(col.key, values.value[0], values.value[1]))
        else if flt.op.AnyOf? then Ok(In(col.key, values.value))
        else Ok(NotIn(col.key, values.value))
    else
      var value := Coerce(adapt, col, flt.value);
      if value.None? then Err(InvalidValue)
      else if flt.op.Containing? then Ok(ILike(col.key, "%" + LikePattern.EscapeLike(TextOf(value.value)) + "%"))
      else if flt.op.StartingWith? then Ok(ILike(col.key, LikePattern.EscapeLike(TextOf(value.value)) + "%"))
      else Ok(Compare(col.key, ComparisonOf(flt.op), value.value))
  }

  function ColumnFilter(ds: Dataset, adapt: Adapter, flt: Filter): Result<Condition, ReportError> {
    var col := FindColumn(ds.columns, flt.column);
    if col.None? then Err(UnknownColumn) else FilterCondition(adapt, col.value, flt)
  }

  /** The conditions of the filters, in order, or the first error. */
  function FilterConditions(ds: Dataset, adapt: Adapter, filters: seq<Filter>): (r: Result<seq<Condition>, ReportError>)
    ensures r.Ok? ==>
            (|r.value| == |filters|
             && forall i :: 0 <= i < |filters| ==> ColumnFilter(ds, adapt, filters[i]) == Ok(r.value[i]))
    ensures r.Err? ==> exists i :: 0 <= i < |filters| && ColumnFilter(ds, adapt, filters[i]).Err?
  {
    if filters == [] then Ok([]) else
      var rest := FilterConditions(ds, adapt, filters[..|filters| - 1]);
      if rest.Err? then rest else
        var last := ColumnFilter(ds, adapt, filters[|filters| - 1]);
        if last.Err? then Err(last.error) else Ok(rest.value + [last.value])
  }

  predicate PeriodUnfiltered(ds: Dataset, spec: Spec) {
    ds.period.Some? && forall i :: 0 <= i < |spec.filters| ==> spec.filters[i].column != ds.period.value
  }

  /** The current year, for a dataset with a period column no filter names. */
  function PeriodConditions(ds: Dataset, spec: Spec, today: Date): seq<Condition> {
    if PeriodUnfiltered(ds, spec) then [Between(ds.period.value, Day(JanFirst(Year(today))), Day(DecLast(Year(today))))]
    else []
  }

  // ---- aggregates ----

  datatype Selected = Selected(item: Item, column: ResultColumn, source: Option<ColumnDef>)

  function FuncName(f: Func): string {
    match f
    case FCount => "count"
    case FCountDistinct => "count_distinct"
    case FSum => "sum"
    case FAvg => "avg"
    case FMin => "min"
    case FMax => "max"
  }

  function ExprOf(f: Func, key: string): Expr {
    match f
    case FCount => CountOf(key)
    case FCountDistinct => CountDistinctOf(key)
    case FSum => SumOf(key)
    case FAvg => RoundedAverageOf(key)
    case FMin => MinOf(key)
    case FMax => MaxOf(key)
  }

  function AggregateOf(ds: Dataset, agg: Aggregate): Result<Selected, ReportError> {
    if agg.column.None? then
      if !agg.func.FCount? then Err(InvalidAggregate)
      else Ok(Selected(Item("count", CountRows), ResultColumn("count", NumberType), None))
    else
      var col := FindColumn(ds.columns, agg.column.value);
      if col.None? then Err(UnknownColumn)
      else if !FuncAllowed(col.value.ctype, agg.func) then Err(InvalidAggregate)
      else
        var key := FuncName(agg.func) + "_" + col.value.key;
        var kind := if agg.func.FMin? || agg.func.FMax? then col.value.ctype else NumberType;
        Ok(Selected(Item(key, ExprOf(agg.func, col.value.key)), ResultColumn(key, kind), None))
  }

  function Dimension(c: ColumnDef): Selected {
    Selected(Item(c.key, ColumnOf(c.key)), ResultColumn(c.key, c.ctype), Some(c))
  }

  function Dimensions(dims: seq<ColumnDef>): (r: seq<Selected>)
    ensures |r| == |dims| && forall i :: 0 <= i < |r| ==> r[i] == Dimension(dims[i])
  {
    seq(|dims|, i requires 0 <= i < |dims| => Dimension(dims[i]))
  }

  predicate KeyIn(selected: seq<Selected>, key: string) {
    exists i :: 0 <= i < |selected| && selected[i].item.key == key
  }

  /** The chosen columns and then the aggregates, each under a key of its own. */
  function Select(ds: Dataset, dims: seq<ColumnDef>, aggs: seq<Aggregate>): Result<seq<Selected>, ReportError> {
    if aggs == [] then Ok(Dimensions(dims)) else
      var rest := Select(ds, dims, aggs[..|aggs| - 1]);
      if rest.Err? then rest else
        var last := AggregateOf(ds, aggs[|aggs| - 1]);
        if last.Err? then Err(last.error)
        else if KeyIn(rest.value, last.value.item.key) then Err(DuplicateColumn)
        else Ok(rest.value + [last.value])
  }

  // ---- sorting ----

  function IndexOf(selected: seq<Selected>, key: string): (r: Option<nat>)
    ensures r.Some? ==> r.value < |selected| && selected[r.value].item.key == key
    ensures r.None? ==> !KeyIn(selected, key)
  {
    if selected == [] then None
    else if selected[|selected| - 1].item.key == key then Some(|selected| - 1)
    else IndexOf(selected[..|selected| - 1], key)
  }

  function OrderOf(selected: seq<Selected>, sorts: seq<Sort>): (r: Result<seq<Order>, ReportError>)
    ensures r.Ok? ==> |r.value| == |sorts| && forall i :: 0 <= i < |sorts| ==>
              IndexOf(selected, sorts[i].column) == Some(r.value[i].at) && r.value[i].descending == sorts[i].descending
    ensures r.Err? ==>
            r.error == InvalidSort && exists i :: 0 <= i < |sorts| && IndexOf(selected, sorts[i].column).None?
  {
    if sorts == [] then Ok([]) else
      var rest := OrderOf(selected, sorts[..|sorts| - 1]);
      if rest.Err? then rest else
        var at := IndexOf(selected, sorts[|sorts| - 1].column);
        if at.None? then Err(InvalidSort) else Ok(rest.value + [Order(at.value, sorts[|sorts| - 1].descending)])
  }

  // ---- the compiler ----

  predicate HasDuplicates(keys: seq<string>) { exists i, j :: 0 <= i < j < |keys| && keys[i] == keys[j] }

  function Items(selected: seq<Selected>): (r: seq<Item>)
    ensures |r| == |selected| && forall i :: 0 <= i < |r| ==> r[i] == selected[i].item
  {
    seq(|selected|, i requires 0 <= i < |selected| => selected[i].item)
  }

  function ColumnsOf(selected: seq<Selected>): (r: seq<ResultColumn>)
    ensures |r| == |selected| && forall i :: 0 <= i < |r| ==> r[i] == selected[i].column
  {
    seq(|selected|, i requires 0 <= i < |selected| => selected[i].column)
  }

  function SourcesOf(selected: seq<Selected>): (r: seq<Option<ColumnDef>>)
    ensures |r| == |selected| && forall i :: 0 <= i < |r| ==> r[i] == selected[i].source
  {
    seq(|selected|, i requires 0 <= i < |selected| => selected[i].source)
  }

  /** `compile_query`, with its checks in their order. */
  function CompileQuery(catalog: map<string, Dataset>, spec: Spec, tenant: nat, today: Date,
                        adapt: Adapter): Result<Compiled, ReportError> {
    if spec.dataset !in catalog then Err(UnknownDataset)
    else if spec.columns == [] && spec.aggregates == [] then Err(NoColumns)
    else if HasDuplicates(spec.columns) then Err(DuplicateColumn)
    else
      var ds := catalog[spec.dataset];
      var dims := FindColumns(ds.columns, spec.columns);
      if dims.None? then Err(UnknownColumn) else
        var filters := FilterConditions(ds, adapt, spec.filters);
        if filters.Err? then Err(filters.error)
        else if PeriodUnfiltered(ds, spec) && FindColumn(ds.columns, ds.period.value).None? then Err(UnknownColumn)
        else
          var selected := Select(ds, dims.value, spec.aggregates);
          if selected.Err? then Err(selected.error) else
            var order := OrderOf(selected.value, spec.sort);
            if order.Err? then Err(order.error) else
              Ok(Compiled(Stmt([OfTenant(tenant)] + filters.value + PeriodConditions(ds, spec, today),
                               Items(selected.value),
                               if spec.aggregates != [] && spec.columns != [] then spec.columns else [],
                               if order.value == [] then [Order(0, false)] else order.value),
                          ColumnsOf(selected.value), SourcesOf(selected.value)))
  }

  /** The loops of `compile_query`, which grow the statement, the selection and the sources side by side. */
  method Compile(catalog: map<string, Dataset>, spec: Spec, tenant: nat, today: Date, adapt: Adapter)
    returns (r: Result<Compiled, ReportError>)
    ensures r == CompileQuery(catalog, spec, tenant, today, adapt)
  {
    hide ColumnFilter, AggregateOf, Year, HasDuplicates, FilterConditions, Select, OrderOf, FindColumns;
    if spec.dataset !in catalog { return Err(UnknownDataset); }
    var ds := catalog[spec.dataset];
    if spec.columns == [] && spec.aggregates == [] { return Err(NoColumns); }
    if HasDuplicates(spec.columns) { return Err(DuplicateColumn); }
    var found := FindColumns(ds.columns, spec.columns);
    if found.None? { return Err(UnknownColumn); }
    var dims := found.value;

    var conditions := [OfTenant(tenant)];
    var filters, filtered := CollectFilters(ds, adapt, spec.filters);
    if filters.Err? { return Err(filters.error); }
    conditions := conditions + filters.value;
    if ds.period.Some? && ds.period.value !in filtered {
      if FindColumn(ds.columns, ds.period.value).None? { return Err(UnknownColumn); }
      conditions := conditions + [Between(ds.period.value, Day(JanFirst(Year(today))), Day(DecLast(Year(today))))];
    }
    assert conditions == [OfTenant(tenant)] + filters.value + PeriodConditions(ds, spec, today);
    var rest := SelectAndSort(ds, dims, spec);
    if rest.Err? { return Err(rest.error); }
    var (selected, order) := rest.value;
    return Ok(Compiled(Stmt(conditions, Items(selected),
                            if spec.aggregates != [] && dims != [] then spec.columns else [], order),
                       ColumnsOf(selected), SourcesOf(selected)));
  }

  /** The filter loop: the conditions, and the columns they are about. */
  method CollectFilters(ds: Dataset, adapt: Adapter, filters: seq<Filter>)
    returns (r: Result<seq<Condition>, ReportError>, filtered: set<string>)
    ensures r == FilterConditions(ds, adapt, filters)
    ensures r.Ok? ==> forall k :: k in filtered <==> exists j :: 0 <= j < |filters| && filters[j].column == k
  {
    hide ColumnFilter;
    var conditions: seq<Condition> := [];
    filtered := {};
    for i := 0 to |filters|
      invariant FilterConditions(ds, adapt, filters[..i]) == Ok(conditions)
      invariant forall k :: k in filtered <==> exists j :: 0 <= j < i && filters[j].column == k
    {
      assert filters[..i + 1][..i] == filters[..i];
      var condition := ColumnFilter(ds, adapt, filters[i]);
      if condition.Err? {
        FirstErrorStays(ds, adapt, filters, i + 1);
        return Err(condition.error), filtered;
      }
      conditions := conditions + [condition.value];
      filtered := filtered + {filters[i].column};
    }
    assert filters[..|filters|] == filters;
    return Ok(conditions), filtered;
  }

  lemma {:induction false} FirstErrorStays(ds: Dataset, adapt: Adapter, filters: seq<Filter>, n: nat)
    requires n <= |filters| && FilterConditions(ds, adapt, filters[..n]).Err?
    ensures FilterConditions(ds, adapt, filters) == FilterConditions(ds, adapt, filters[..n])
    decreases |filters|
  {
    if n == |filters| {
      assert filters[..n] == filters;
    } else {
      assert filters[..|filters| - 1][..n] == filters[..n];
      FirstErrorStays(ds, adapt, filters[..|filters| - 1], n);
    }
  }

  lemma {:induction false} SelectErrorStays(ds: Dataset, dims: seq<ColumnDef>, aggs: seq<Aggregate>, n: nat)
    requires n <= |aggs| && Select(ds, dims, aggs[..n]).Err?
    ensures Select(ds, dims, aggs) == Select(ds, dims, aggs[..n])
    decreases |aggs|
  {
    if n == |aggs| {
      assert aggs[..n] == aggs;
    } else {
      assert aggs[..|aggs| - 1][..n] == aggs[..n];
      SelectErrorStays(ds, dims, aggs[..|aggs| - 1], n);
    }
  }

  method SelectAndSort(ds: Dataset, dims: seq<ColumnDef>, spec: Spec)
    returns (r: Result<(seq<Selected>, seq<Order>), ReportError>)
    ensures var selected := Select(ds, dims, spec.aggregates);
            if selected.Err? then r == Err(selected.error) else
              var order := OrderOf(selected.value, spec.sort);
              if order.Err? then r == Err(order.error)
              else r == Ok((selected.value, if order.value == [] then [Order(0, false)] else order.value))
  {
    hide AggregateOf;
    var selected := Dimensions(dims);
    for i := 0 to |spec.aggregates|
      invariant Select(ds, dims, spec.aggregates[..i]) == Ok(selected)
    {
      assert spec.aggregates[..i + 1][..i] == spec.aggregates[..i];
      var one := AggregateOf(ds, spec.aggregates[i]);
      if one.Err? {
        SelectErrorStays(ds, dims, spec.aggregates, i + 1);
        return Err(one.error);
      }
      if KeyIn(selected, one.value.item.key) {
        SelectErrorStays(ds, dims, spec.aggregates, i + 1);
        return Err(DuplicateColumn);
      }
      selected := selected + [one.value];
    }
    assert spec.aggregates[..|spec.aggregates|] == spec.aggregates;
    var order: seq<Order> := [];
    for i := 0 to |spec.sort|
      invariant OrderOf(selected, spec.sort[..i]) == Ok(order)
    {
      assert spec.sort[..i + 1][..i] == spec.sort[..i];
      var at := IndexOf(selected, spec.sort[i].column);
      if at.None? {
        SortErrorStays(selected, spec.sort, i + 1);
        return Err(InvalidSort);
      }
      order := order + [Order(at.value, spec.sort[i].descending)];
    }
    assert spec.sort[..|spec.sort|] == spec.sort;
    if order == [] { order := [Order(0, false)]; }
    return Ok((selected, order));
  }

  lemma {:induction false} SortErrorStays(selected: seq<Selected>, sorts: seq<Sort>, n: nat)
    requires n <= |sorts| && OrderOf(selected, sorts[..n]).Err?
    ensures OrderOf(selected, sorts).Err?
    decreases |sorts|
  {
    if n == |sorts| {
      assert sorts[..n] == sorts;
    } else {
      assert sorts[..|sorts| - 1][..n] == sorts[..n];
      SortErrorStays(selected, sorts[..|sorts| - 1], n);
    }
  }
}
