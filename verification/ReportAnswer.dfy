/** The answer to a report specification, and that the compiled statement returns exactly the answers. */
module ReportAnswer {
  import opened Common
  import opened Calendar
  import opened ReportSql
  import opened ReportQuery
  import opened ReportMeaning

  // ---- aggregates, read directly ----

  predicate AllNull(rows: seq<Row>, key: string) { forall i :: 0 <= i < |rows| ==> Cell(rows[i], key).Null? }

  predicate IsNearest(n: int, y: real) {
    && -0.5 <= n as real - y <= 0.5
    && (n as real - y == 0.5 ==> y >= 0.0)
    && (n as real - y == -0.5 ==> y < 0.0)
  }

  predicate NearestHundredth(n: int, x: real) { IsNearest(n, x * 100.0) }

  /** `a` is `x` to the nearest hundredth, and a half goes away from zero. */
  ghost predicate IsRounded(a: real, x: real) { exists n :: NearestHundredth(n, x) && a == n as real / 100.0 }

  /** A value of the column no other value beats. */
  predicate IsExtreme(db: Db, rows: seq<Row>, key: string, greatest: bool, v: Value) {
    && !v.Null? && (exists i :: 0 <= i < |rows| && Cell(rows[i], key) == v)
    && (forall i :: 0 <= i < |rows| && !Cell(rows[i], key).Null? ==>
         if greatest then AtMost(db, Cell(rows[i], key), v) else AtMost(db, v, Cell(rows[i], key)))
  }

  ghost predicate IsAggregate(db: Db, agg: Aggregate, rows: seq<Row>, v: Value) {
    if agg.column.None? then v == Number(|rows| as real)
    else
      var key := agg.column.value;
      match agg.func
      case FCount => v == Number(|set i | 0 <= i < |rows| && !Cell(rows[i], key).Null?| as real)
      case FCountDistinct =>
        v == Number(|set i | 0 <= i < |rows| && !Cell(rows[i], key).Null? :: Cell(rows[i], key)| as real)
      case FSum => if AllNull(rows, key) then v.Null? else v == Number(Sum(Values(rows, key)))
      case FAvg =>
        if AllNull(rows, key) then v.Null? else
          v.Number? && Values(rows, key) != [] && IsRounded(v.num, Sum(Values(rows, key)) / |Values(rows, key)| as real)
      case FMin => if AllNull(rows, key) then v.Null? else IsExtreme(db, rows, key, false, v)
      case FMax => if AllNull(rows, key) then v.Null? else IsExtreme(db, rows, key, true, v)
  }

  lemma {:induction false} ValuesAre(rows: seq<Row>, key: string)
    ensures forall v :: v in Values(rows, key) <==> !v.Null? && exists i :: 0 <= i < |rows| && Cell(rows[i], key) == v
    ensures Values(rows, key) == [] <==> AllNull(rows, key)
  {
    hide Cell;
    if rows != [] {
      var n := |rows| - 1;
      ValuesAre(rows[..n], key);
      assert forall i :: 0 <= i < n ==> rows[..n][i] == rows[i];
    }
  }

  lemma {:induction false} ValuesCount(rows: seq<Row>, key: string)
    ensures |Values(rows, key)| == |set i | 0 <= i < |rows| && !Cell(rows[i], key).Null?|
  {
    hide Cell;
    if rows != [] {
      var n := |rows| - 1;
      ValuesCount(rows[..n], key);
      var before := set i | 0 <= i < n && !Cell(rows[..n][i], key).Null?;
      var all := set i | 0 <= i < |rows| && !Cell(rows[i], key).Null?;
      assert all == if Cell(rows[n], key).Null? then before else before + {n};
    }
  }

  lemma NearestIs(y: real, n: int)
    ensures IsNearest(n, y) <==> n == Nearest(y)
  {}

  lemma RoundedMeansIt(a: real, x: real)
    ensures IsRounded(a, x) <==> a == Round2(x)
  {
    hide IsNearest, Nearest;
    forall n ensures NearestHundredth(n, x) <==> n == Nearest(x * 100.0) { NearestIs(x * 100.0, n); }
    assert NearestHundredth(Nearest(x * 100.0), x);
  }

  predicate OneType(values: seq<Value>, ctype: ColumnType) {
    forall i :: 0 <= i < |values| ==> HasType(values[i], ctype)
  }

  lemma {:induction false} ExtremeIs(db: Db, values: seq<Value>, ctype: ColumnType, greatest: bool)
    requires OneType(values, ctype) && values != [] && FuncAllowed(ctype, FMin)
    ensures var e := Extreme(db, values, greatest);
            e in values && HasType(e, ctype)
            && forall v :: v in values ==> if greatest then AtMost(db, v, e) else AtMost(db, e, v)
  {
    if |values| > 1 {
      var rest, last := values[..|values| - 1], values[|values| - 1];
      ExtremeIs(db, rest, ctype, greatest);
      assert values == rest + [last];
    }
  }

  lemma AggregateMeansIt(db: Db, ds: Dataset, agg: Aggregate, rows: seq<Row>, v: Value)
    requires AggregateOf(ds, agg).Ok? && Fits(ds, rows)
    ensures IsAggregate(db, agg, rows, v) <==> v == EvalExpr(db, AggregateOf(ds, agg).value.item.expr, rows)
  {
    hide Sum, Round2, IsRounded, IsExtreme, Values, AllNull;
    if agg.column.Some? {
      var key := agg.column.value;
      ValuesAre(rows, key);
      ValuesCount(rows, key);
      assert (set v | v in Values(rows, key)) ==
             set i | 0 <= i < |rows| && !Cell(rows[i], key).Null? :: Cell(rows[i], key);
      if AllNull(rows, key) {
      } else if agg.func.FMin? || agg.func.FMax? {
        ExtremeMeansIt(db, ds, key, rows, agg.func.FMax?, v);
      } else if agg.func.FAvg? {
        AverageMeansIt(rows, key, v);
      }
    }
  }

  lemma AverageMeansIt(rows: seq<Row>, key: string, v: Value)
    requires Values(rows, key) != []
    ensures var x := Sum(Values(rows, key)) / |Values(rows, key)| as real;
            v.Number? && IsRounded(v.num, x) <==> v == Number(Round2(x))
  {
    hide Sum, IsRounded, Round2, Values;
    var x := Sum(Values(rows, key)) / |Values(rows, key)| as real;
    if v.Number? { RoundedMeansIt(v.num, x); }
  }

  lemma ExtremeMeansIt(db: Db, ds: Dataset, key: string, rows: seq<Row>, greatest: bool, v: Value)
    requires Fits(ds, rows) && FindColumn(ds.columns, key).Some?
             && FuncAllowed(FindColumn(ds.columns, key).value.ctype, FMin)
    requires !AllNull(rows, key)
    ensures IsExtreme(db, rows, key, greatest, v) <==> v == Extreme(db, Values(rows, key), greatest)
  {
    hide Extreme, Values, FindColumn;
    var values, ctype := Values(rows, key), FindColumn(ds.columns, key).value.ctype;
    ValuesAre(rows, key);
    forall i | 0 <= i < |values| ensures HasType(values[i], ctype) { assert values[i] in values; }
    ExtremeIs(db, values, ctype, greatest);
    var e := Extreme(db, values, greatest);
    if IsExtreme(db, rows, key, greatest, v) {
      assert v in values && e in values;
    }
  }

  // ---- the answer to a specification ----

  /** One row of the answer: the chosen columns, then the aggregates over the rows it stands for. */
  ghost predicate RowRight(db: Db, spec: Spec, rows: seq<Row>, x: seq<Value>) {
    && |x| == |spec.columns| + |spec.aggregates|
    && forall j :: 0 <= j < |spec.aggregates| ==> IsAggregate(db, spec.aggregates[j], rows, x[|spec.columns| + j])
  }

  function Combinations(columns: seq<string>, rows: seq<Row>): seq<seq<Value>> {
    if rows == [] then [] else Combinations(columns, rows[..|rows| - 1]) + [GroupKey(columns, rows[|rows| - 1])]
  }

  /** Some row has the combination. */
  predicate Occurs(columns: seq<string>, rows: seq<Row>, key: seq<Value>) {
    exists r :: r in rows && GroupKey(columns, r) == key
  }

  /** Some row of the result is about the combination. */
  predicate IsListed(result: seq<seq<Value>>, key: seq<Value>) {
    exists i :: 0 <= i < |result| && |result[i]| >= |key| && result[i][..|key|] == key
  }

  /** Without aggregates one row per wanted row; else one row per combination of the chosen columns that
      occurs, or, without chosen columns, one row for all. */
  ghost predicate HasContent(db: Db, spec: Spec, rows: seq<Row>, result: seq<seq<Value>>) {
    var d := |spec.columns|;
    if spec.aggregates == [] then multiset(result) == multiset(Combinations(spec.columns, rows))
    else if spec.columns == [] then |result| == 1 && RowRight(db, spec, rows, result[0])
    else
      && (forall i :: 0 <= i < |result| ==>
          |result[i]| >= d && RowRight(db, spec, Members(spec.columns, rows, result[i][..d]), result[i]))
      && (forall i, j :: 0 <= i < j < |result| ==> result[i][..d] != result[j][..d])
      && (forall i :: 0 <= i < |result| ==> Occurs(spec.columns, rows, result[i][..d]))
      && (forall r :: r in rows ==> IsListed(result, GroupKey(spec.columns, r)))
  }

  function ResultKey(spec: Spec, at: nat): string
    requires at < |spec.columns| + |spec.aggregates|
  {
    if at < |spec.columns| then spec.columns[at] else
      var agg := spec.aggregates[at - |spec.columns|];
      if agg.column.None? then "count" else
        match agg.func
        case FCount => "count_" + agg.column.value
        case FCountDistinct => "count_distinct_" + agg.column.value
        case FSum => "sum_" + agg.column.value
        case FAvg => "avg_" + agg.column.value
        case FMin => "min_" + agg.column.value
        case FMax => "max_" + agg.column.value
  }

  /** The order the specification asks for: the named results, or the first one. */
  predicate AsAsked(spec: Spec, order: seq<Order>) {
    if spec.sort == [] then order == [Order(0, false)]
    else
      |order| == |spec.sort| && forall i :: 0 <= i < |order| ==>
        && order[i].at < |spec.columns| + |spec.aggregates|
        && ResultKey(spec, order[i].at) == spec.sort[i].column
        && order[i].descending == spec.sort[i].descending
  }

  /** By this sort `x` goes before `y`: null goes last in either direction. */
  predicate ComesFirst(db: Db, o: Order, x: seq<Value>, y: seq<Value>)
    requires o.at < |x| && o.at < |y|
  {
    var a, b := x[o.at], y[o.at];
    if a.Null? then false
    else if b.Null? then true
    else if o.descending then Less(db, b, a)
    else Less(db, a, b)
  }

  predicate Wide(order: seq<Order>, x: seq<Value>) { forall i :: 0 <= i < |order| ==> order[i].at < |x| }

  /** Sort `n` puts `later` first, and the sorts before it leave the two equal. */
  predicate Decides(db: Db, order: seq<Order>, n: nat, earlier: seq<Value>, later: seq<Value>)
    requires Wide(order, earlier) && Wide(order, later) && n < |order|
  {
    ComesFirst(db, order[n], later, earlier)
    && forall m :: 0 <= m < n ==> !ComesFirst(db, order[m], later, earlier) && !ComesFirst(db, order[m], earlier, later)
  }

  predicate OutOfOrder(db: Db, order: seq<Order>, earlier: seq<Value>, later: seq<Value>)
    requires Wide(order, earlier) && Wide(order, later)
  {
    exists n :: 0 <= n < |order| && Decides(db, order, n, earlier, later)
  }

  predicate InOrder(db: Db, order: seq<Order>, width: nat, result: seq<seq<Value>>) {
    && (forall i :: 0 <= i < |result| ==> |result[i]| == width)
    && (forall i :: 0 <= i < |order| ==> order[i].at < width)
    && (forall i, j :: 0 <= i < j < |result| ==> !OutOfOrder(db, order, result[i], result[j]))
  }

  lemma {:induction false} RowBeforeMeansIt(db: Db, order: seq<Order>, x: seq<Value>, y: seq<Value>)
    requires Wide(order, x) && Wide(order, y)
    ensures RowBefore(db, order, y, x) <==> OutOfOrder(db, order, x, y)
  {
    hide Less;
    if order != [] {
      RowBeforeMeansIt(db, order[1..], x, y);
      if ComesFirst(db, order[0], y, x) {
        assert Decides(db, order, 0, x, y);
      } else {
        forall n | 0 < n < |order|
          ensures Decides(db, order, n, x, y) <==>
                  !ComesFirst(db, order[0], x, y) && Decides(db, order[1..], n - 1, x, y)
        {
          DecidesLater(db, order, n, x, y);
        }
        if n :| 0 <= n < |order| - 1 && Decides(db, order[1..], n, x, y) {
          assert Decides(db, order, n + 1, x, y) <==> !ComesFirst(db, order[0], x, y);
        }
      }
    }
  }

  lemma DecidesLater(db: Db, order: seq<Order>, n: nat, x: seq<Value>, y: seq<Value>)
    requires Wide(order, x) && Wide(order, y) && 0 < n < |order| && !ComesFirst(db, order[0], y, x)
    ensures Decides(db, order, n, x, y) <==> !ComesFirst(db, order[0], x, y) && Decides(db, order[1..], n - 1, x, y)
  {
    hide ComesFirst;
    assert order[1..][n - 1] == order[n];
    assert forall m :: 0 <= m < n - 1 ==> order[1..][m] == order[m + 1];
    if Decides(db, order[1..], n - 1, x, y) && !ComesFirst(db, order[0], x, y) {
      forall m | 0 <= m < n ensures !ComesFirst(db, order[m], y, x) && !ComesFirst(db, order[m], x, y) {
        if m > 0 { assert order[1..][m - 1] == order[m]; }
      }
    }
  }

  lemma SortedMeansIt(db: Db, order: seq<Order>, width: nat, result: seq<seq<Value>>)
    ensures Sorted(db, order, width, result) <==> InOrder(db, order, width, result)
  {
    hide RowBefore, OutOfOrder;
    if (forall i :: 0 <= i < |result| ==> |result[i]| == width)
       && (forall i :: 0 <= i < |order| ==> order[i].at < width) {
      forall i, j | 0 <= i < j < |result|
        ensures RowBefore(db, order, result[j], result[i]) <==> OutOfOrder(db, order, result[i], result[j])
      {
        RowBeforeMeansIt(db, order, result[i], result[j]);
      }
    }
  }

  ghost predicate IsAnswer(db: Db, spec: Spec, rows: seq<Row>, result: seq<seq<Value>>) {
    HasContent(db, spec, rows, result)
    && exists order :: AsAsked(spec, order) && InOrder(db, order, |spec.columns| + |spec.aggregates|, result)
  }

  // ---- what the compiler selects ----

  predicate SelectedFor(ds: Dataset, spec: Spec, selected: seq<Selected>) {
    && |selected| == |spec.columns| + |spec.aggregates|
    && (forall i :: 0 <= i < |spec.columns| ==>
         FindColumn(ds.columns, spec.columns[i]).Some?
         && selected[i] == Dimension(FindColumn(ds.columns, spec.columns[i]).value))
    && (forall j :: 0 <= j < |spec.aggregates| ==>
        AggregateOf(ds, spec.aggregates[j]) == Ok(selected[|spec.columns| + j]))
    && (forall i, j :: 0 <= i < j < |selected| ==> selected[i].item.key != selected[j].item.key)
  }

  lemma {:induction false} SelectIs(ds: Dataset, spec: Spec, dims: seq<ColumnDef>, n: nat)
    requires FindColumns(ds.columns, spec.columns) == Some(dims) && !HasDuplicates(spec.columns)
    requires n <= |spec.aggregates| && Select(ds, dims, spec.aggregates[..n]).Ok?
    ensures SelectedFor(ds, spec.(aggregates := spec.aggregates[..n]), Select(ds, dims, spec.aggregates[..n]).value)
  {
    hide AggregateOf, FindColumn, HasDuplicates;
    if n == 0 {
      DimensionsAre(ds, spec, dims);
      assert spec.aggregates[..n] == [];
    } else {
      var before, part := spec.(aggregates := spec.aggregates[..n - 1]), spec.(aggregates := spec.aggregates[..n]);
      assert part.aggregates[..n - 1] == before.aggregates;
      SelectIs(ds, spec, dims, n - 1);
      OneMoreSelected(ds, before, part, Select(ds, dims, before.aggregates).value,
                      AggregateOf(ds, spec.aggregates[n - 1]).value);
    }
  }

  lemma DimensionsAre(ds: Dataset, spec: Spec, dims: seq<ColumnDef>)
    requires FindColumns(ds.columns, spec.columns) == Some(dims) && !HasDuplicates(spec.columns)
    ensures SelectedFor(ds, spec.(aggregates := []), Dimensions(dims))
  {}

  lemma OneMoreSelected(ds: Dataset, before: Spec, part: Spec, selected: seq<Selected>, one: Selected)
    requires SelectedFor(ds, before, selected) && part.columns == before.columns
    requires |part.aggregates| > 0 && before.aggregates == part.aggregates[..|part.aggregates| - 1]
    requires AggregateOf(ds, part.aggregates[|part.aggregates| - 1]) == Ok(one) && !KeyIn(selected, one.item.key)
    ensures SelectedFor(ds, part, selected + [one])
  {
    hide AggregateOf, FindColumn;
  }

  lemma SelectedKeys(ds: Dataset, spec: Spec, selected: seq<Selected>, at: nat)
    requires SelectedFor(ds, spec, selected) && at < |selected|
    ensures selected[at].item.key == ResultKey(spec, at) == selected[at].column.key
  {
    if at >= |spec.columns| { assert AggregateOf(ds, spec.aggregates[at - |spec.columns|]) == Ok(selected[at]); }
  }

  // ---- the tuples are the answer ----

  lemma FitsPart(ds: Dataset, rows: seq<Row>, part: seq<Row>)
    requires Fits(ds, rows) && forall r :: r in part ==> r in rows
    ensures Fits(ds, part)
  {
    forall i | 0 <= i < |part| ensures exists j :: 0 <= j < |rows| && rows[j] == part[i] {
      assert part[i] in rows;
    }
  }

  lemma {:induction false} MembersAre(columns: seq<string>, rows: seq<Row>, key: seq<Value>)
    ensures forall r :: r in Members(columns, rows, key) <==> r in rows && GroupKey(columns, r) == key
  {
    if rows != [] {
      MembersAre(columns, rows[..|rows| - 1], key);
      assert forall r :: r in rows <==> r in rows[..|rows| - 1] || r == rows[|rows| - 1];
    }
  }

  lemma {:induction false} GroupKeysAre(columns: seq<string>, rows: seq<Row>)
    ensures NoRepeats(GroupKeys(columns, rows))
    ensures forall k :: k in GroupKeys(columns, rows) <==> Occurs(columns, rows, k)
    ensures forall k :: k in GroupKeys(columns, rows) ==> |k| == |columns|
  {
    if rows != [] {
      var rest, last := rows[..|rows| - 1], rows[|rows| - 1];
      GroupKeysAre(columns, rest);
      assert forall r :: r in rows <==> r in rest || r == last;
      assert forall k :: Occurs(columns, rows, k) <==> k in GroupKeys(columns, rest) || k == GroupKey(columns, last);
    }
  }

  /** The tuple of a group is the one row that has its combination and the right aggregates. */
  lemma TupleIsRight(db: Db, ds: Dataset, spec: Spec, selected: seq<Selected>, rows: seq<Row>, key: seq<Value>,
                     x: seq<Value>)
    requires SelectedFor(ds, spec, selected) && Fits(ds, rows) && |key| == |spec.columns|
    requires |key| > 0 ==> rows != [] && forall r :: r in rows ==> GroupKey(spec.columns, r) == key
    ensures x == TupleOf(db, Items(selected), rows) <==> RowRight(db, spec, rows, x) && x[..|key|] == key
  {
    hide IsAggregate, AggregateOf, Fits, EvalExpr;
    var t, d := TupleOf(db, Items(selected), rows), |spec.columns|;
    forall i | 0 <= i < d ensures t[i] == key[i] { ColumnValue(db, spec.columns, selected[i].item, rows, key, i); }
    if |x| == |t| {
      forall j | 0 <= j < |spec.aggregates|
        ensures IsAggregate(db, spec.aggregates[j], rows, x[d + j]) <==> x[d + j] == t[d + j]
      {
        AggregateMeansIt(db, ds, spec.aggregates[j], rows, x[d + j]);
      }
      forall i | 0 <= i < |x| && RowRight(db, spec, rows, x) && x[..d] == key ensures x[i] == t[i] {
        if i < d {
          assert x[i] == x[..d][i];
        } else {
          assert IsAggregate(db, spec.aggregates[i - d], rows, x[d + (i - d)]);
        }
      }
    }
  }

  lemma ColumnValue(db: Db, columns: seq<string>, item: Item, rows: seq<Row>, key: seq<Value>, i: nat)
    requires i < |columns| == |key| && item.expr == ColumnOf(columns[i])
    requires rows != [] && forall r :: r in rows ==> GroupKey(columns, r) == key
    ensures EvalExpr(db, item.expr, rows) == key[i]
  {
    assert rows[0] in rows;
  }

  lemma {:induction false} PlainTuplesAre(db: Db, ds: Dataset, spec: Spec, selected: seq<Selected>, rows: seq<Row>)
    requires SelectedFor(ds, spec, selected) && spec.aggregates == []
    ensures PlainTuples(db, Items(selected), rows) == Combinations(spec.columns, rows)
  {
    if rows != [] {
      PlainTuplesAre(db, ds, spec, selected, rows[..|rows| - 1]);
      var r := rows[|rows| - 1];
      forall i | 0 <= i < |selected| ensures TupleOf(db, Items(selected), [r])[i] == GroupKey(spec.columns, r)[i] {}
      assert TupleOf(db, Items(selected), [r]) == GroupKey(spec.columns, r);
    }
  }

  /** The statement of a specification, before its conditions. */
  predicate StatesSpec(ds: Dataset, spec: Spec, selected: seq<Selected>, stmt: Stmt) {
    && SelectedFor(ds, spec, selected) && selected != []
    && stmt.items == Items(selected)
    && stmt.groupBy == (if spec.aggregates != [] then spec.columns else [])
    && AsAsked(spec, stmt.order)
  }

  lemma AggregatesIff(ds: Dataset, spec: Spec, selected: seq<Selected>, stmt: Stmt)
    requires StatesSpec(ds, spec, selected, stmt)
    ensures Aggregates(stmt) <==> spec.aggregates != []
  {
    if spec.aggregates != [] {
      assert AggregateOf(ds, spec.aggregates[0]) == Ok(selected[|spec.columns|]);
      assert !stmt.items[|spec.columns|].expr.ColumnOf?;
    }
  }

  lemma GroupIsRight(db: Db, ds: Dataset, spec: Spec, selected: seq<Selected>, rows: seq<Row>, key: seq<Value>,
                     x: seq<Value>)
    requires SelectedFor(ds, spec, selected) && Fits(ds, rows) && key in GroupKeys(spec.columns, rows)
    ensures |key| == |spec.columns|
    ensures x == TupleOf(db, Items(selected), Members(spec.columns, rows, key)) <==>
            RowRight(db, spec, Members(spec.columns, rows, key), x) && x[..|key|] == key
  {
    hide IsAggregate, Fits, RowRight, SelectedFor, GroupKeys, Members;
    GroupKeysAre(spec.columns, rows);
    var r :| r in rows && GroupKey(spec.columns, r) == key;
    var part := Members(spec.columns, rows, key);
    MembersAre(spec.columns, rows, key);
    assert r in part;
    FitsPart(ds, rows, part);
    TupleIsRight(db, ds, spec, selected, part, key, x);
  }

  /** The grouped tuples: one right row for each combination. */
  lemma GroupTuplesAre(db: Db, ds: Dataset, spec: Spec, selected: seq<Selected>, stmt: Stmt, rows: seq<Row>,
                       x: seq<Value>)
    requires StatesSpec(ds, spec, selected, stmt) && Fits(ds, rows) && spec.columns != [] && spec.aggregates != []
    ensures var ts := GroupTuples(db, stmt, rows, GroupKeys(spec.columns, rows));
            var d := |spec.columns|;
            && NoRepeats(ts)
            && (x in ts <==>
                |x| >= d && x[..d] in GroupKeys(spec.columns, rows)
                && RowRight(db, spec, Members(spec.columns, rows, x[..d]), x))
            && (forall k :: k in GroupKeys(spec.columns, rows) ==>
                |k| == d && exists t :: t in ts && |t| >= d && t[..d] == k)
  {
    hide IsAggregate, Fits, RowRight, SelectedFor, GroupKeys, Members, TupleOf;
    var keys, d := GroupKeys(spec.columns, rows), |spec.columns|;
    var ts := GroupTuples(db, stmt, rows, keys);
    GroupKeysAre(spec.columns, rows);
    forall i | 0 <= i < |keys| ensures |keys[i]| == d && |ts[i]| >= d && ts[i][..d] == keys[i] && ts[i] in ts {
      GroupIsRight(db, ds, spec, selected, rows, keys[i], ts[i]);
      RightIsWide(db, spec, Members(spec.columns, rows, keys[i]), ts[i]);
    }
    if x in ts {
      var i :| 0 <= i < |ts| && ts[i] == x;
      GroupIsRight(db, ds, spec, selected, rows, keys[i], x);
    }
    if |x| >= d && x[..d] in keys && RowRight(db, spec, Members(spec.columns, rows, x[..d]), x) {
      GroupIsRight(db, ds, spec, selected, rows, x[..d], x);
      var i :| 0 <= i < |keys| && keys[i] == x[..d];
      assert ts[i] == x;
    }
  }

  lemma RightIsWide(db: Db, spec: Spec, rows: seq<Row>, x: seq<Value>)
    requires RowRight(db, spec, rows, x)
    ensures |x| == |spec.columns| + |spec.aggregates|
  {}

  predicate Grouped(spec: Spec) { spec.columns != [] && spec.aggregates != [] }

  /** The rows of a grouped answer: right ones, of which no two have the same combination, and one for each there is. */
  ghost predicate GroupsRight(db: Db, spec: Spec, rows: seq<Row>, result: seq<seq<Value>>) {
    var d, keys := |spec.columns|, GroupKeys(spec.columns, rows);
    && (forall i :: 0 <= i < |result| ==>
         |result[i]| >= d && RowRight(db, spec, Members(spec.columns, rows, result[i][..d]), result[i])
         && result[i][..d] in keys)
    && (forall i, j :: 0 <= i < j < |result| ==> result[i][..d] != result[j][..d])
    && (forall k :: k in keys ==> IsListed(result, k))
  }

  lemma GroupsRightIsContent(db: Db, spec: Spec, rows: seq<Row>, result: seq<seq<Value>>)
    requires Grouped(spec)
    ensures GroupsRight(db, spec, rows, result) <==> HasContent(db, spec, rows, result)
  {
    hide RowRight, GroupKeys, Members, IsListed, Occurs;
    GroupKeysAre(spec.columns, rows);
    ListedIff(spec.columns, rows, result);
  }

  lemma ListedIff(columns: seq<string>, rows: seq<Row>, result: seq<seq<Value>>)
    ensures (forall k :: k in GroupKeys(columns, rows) ==> IsListed(result, k)) <==>
            (forall r :: r in rows ==> IsListed(result, GroupKey(columns, r)))
  {
    hide GroupKeys, IsListed;
    GroupKeysAre(columns, rows);
    forall r | r in rows ensures GroupKey(columns, r) in GroupKeys(columns, rows) {
      assert Occurs(columns, rows, GroupKey(columns, r));
    }
  }

  lemma SameKeySameTuple(db: Db, ds: Dataset, spec: Spec, selected: seq<Selected>, stmt: Stmt, rows: seq<Row>,
                         x: seq<Value>, y: seq<Value>)
    requires StatesSpec(ds, spec, selected, stmt) && Fits(ds, rows) && Grouped(spec)
    requires var ts := GroupTuples(db, stmt, rows, GroupKeys(spec.columns, rows)); x in ts && y in ts
    requires |x| >= |spec.columns| && |y| >= |spec.columns| && x[..|spec.columns|] == y[..|spec.columns|]
    ensures x == y
  {
    hide RowRight, SelectedFor, GroupKeys, Members, TupleOf, Fits;
    GroupTuplesAre(db, ds, spec, selected, stmt, rows, x);
    GroupTuplesAre(db, ds, spec, selected, stmt, rows, y);
    GroupIsRight(db, ds, spec, selected, rows, x[..|spec.columns|], x);
    GroupIsRight(db, ds, spec, selected, rows, x[..|spec.columns|], y);
  }

  lemma PermutationHasGroups(db: Db, ds: Dataset, spec: Spec, selected: seq<Selected>, stmt: Stmt, rows: seq<Row>,
                             result: seq<seq<Value>>)
    requires StatesSpec(ds, spec, selected, stmt) && Fits(ds, rows) && Grouped(spec)
    requires NoRepeats(result)
    requires forall x :: x in result <==> x in GroupTuples(db, stmt, rows, GroupKeys(spec.columns, rows))
    ensures GroupsRight(db, spec, rows, result)
  {
    hide RowRight, SelectedFor, GroupKeys, Members, GroupTuples, Fits, StatesSpec;
    var d, keys := |spec.columns|, GroupKeys(spec.columns, rows);
    forall i | 0 <= i < |result|
      ensures |result[i]| >= d && RowRight(db, spec, Members(spec.columns, rows, result[i][..d]), result[i])
              && result[i][..d] in keys
    {
      assert result[i] in result;
      GroupTuplesAre(db, ds, spec, selected, stmt, rows, result[i]);
    }
    forall i, j | 0 <= i < j < |result| ensures result[i][..d] != result[j][..d] {
      if result[i][..d] == result[j][..d] {
        assert result[i] in result && result[j] in result;
        SameKeySameTuple(db, ds, spec, selected, stmt, rows, result[i], result[j]);
      }
    }
    GroupTuplesAre(db, ds, spec, selected, stmt, rows, []);
    forall k | k in keys ensures IsListed(result, k) {
      var t :| t in GroupTuples(db, stmt, rows, keys) && |t| >= d && t[..d] == k;
      var i :| 0 <= i < |result| && result[i] == t;
    }
  }

  lemma GroupsArePermutation(db: Db, ds: Dataset, spec: Spec, selected: seq<Selected>, stmt: Stmt, rows: seq<Row>,
                             result: seq<seq<Value>>, x: seq<Value>)
    requires StatesSpec(ds, spec, selected, stmt) && Fits(ds, rows) && Grouped(spec)
    requires GroupsRight(db, spec, rows, result)
    ensures NoRepeats(result)
    ensures x in result <==> x in GroupTuples(db, stmt, rows, GroupKeys(spec.columns, rows))
  {
    hide RowRight, SelectedFor, GroupKeys, Members, GroupTuples, Fits, StatesSpec;
    var d, keys := |spec.columns|, GroupKeys(spec.columns, rows);
    GroupTuplesAre(db, ds, spec, selected, stmt, rows, x);
    if x in GroupTuples(db, stmt, rows, keys) {
      assert IsListed(result, x[..d]);
      var i :| 0 <= i < |result| && result[i][..d] == x[..d];
      GroupTuplesAre(db, ds, spec, selected, stmt, rows, result[i]);
      SameKeySameTuple(db, ds, spec, selected, stmt, rows, x, result[i]);
    }
  }

  /** What a statement returns, in whatever order, is what the specification asks for. */
  lemma ContentIs(db: Db, ds: Dataset, spec: Spec, selected: seq<Selected>, stmt: Stmt, view: seq<Row>,
                  result: seq<seq<Value>>)
    requires StatesSpec(ds, spec, selected, stmt) && Fits(ds, Where(db, stmt.conditions, view))
    ensures multiset(result) == multiset(Tuples(db, stmt, view)) <==>
            HasContent(db, spec, Where(db, stmt.conditions, view), result)
  {
    hide RowRight, SelectedFor, GroupKeys, Members, GroupTuples, Fits, AsAsked, PlainTuples, TupleOf, Aggregates, Where;
    var rows := Where(db, stmt.conditions, view);
    AggregatesIff(ds, spec, selected, stmt);
    if spec.aggregates == [] {
      PlainTuplesAre(db, ds, spec, selected, rows);
    } else if spec.columns == [] {
      OneTuple(db, ds, spec, selected, rows, result);
    } else {
      GroupedContentIs(db, ds, spec, selected, stmt, rows, result);
    }
  }

  lemma OneTuple(db: Db, ds: Dataset, spec: Spec, selected: seq<Selected>, rows: seq<Row>, result: seq<seq<Value>>)
    requires SelectedFor(ds, spec, selected) && Fits(ds, rows) && spec.columns == []
    ensures multiset(result) == multiset([TupleOf(db, Items(selected), rows)]) <==>
            |result| == 1 && RowRight(db, spec, rows, result[0])
  {
    hide RowRight, SelectedFor, TupleOf, Fits;
    var t := TupleOf(db, Items(selected), rows);
    assert |result| == |multiset(result)|;
    assert |multiset([t])| == 1;
    if |result| == 1 {
      TupleIsRight(db, ds, spec, selected, rows, [], result[0]);
      assert result == [result[0]];
      if multiset(result) == multiset([t]) {
        assert result[0] in multiset(result);
      }
    }
  }

  lemma GroupedContentIs(db: Db, ds: Dataset, spec: Spec, selected: seq<Selected>, stmt: Stmt, rows: seq<Row>,
                         result: seq<seq<Value>>)
    requires StatesSpec(ds, spec, selected, stmt) && Fits(ds, rows) && Grouped(spec)
    ensures multiset(result) == multiset(GroupTuples(db, stmt, rows, GroupKeys(spec.columns, rows))) <==>
            HasContent(db, spec, rows, result)
  {
    hide HasContent, GroupsRight, GroupKeys, GroupTuples, Fits, StatesSpec, RowRight;
    var ts := GroupTuples(db, stmt, rows, GroupKeys(spec.columns, rows));
    GroupsRightIsContent(db, spec, rows, result);
    GroupTuplesAre(db, ds, spec, selected, stmt, rows, []);
    PermutationIsSameElements(result, ts);
    if multiset(result) == multiset(ts) {
      PermutationHasGroups(db, ds, spec, selected, stmt, rows, result);
    } else if GroupsRight(db, spec, rows, result) {
      forall x ensures x in result <==> x in ts { GroupsArePermutation(db, ds, spec, selected, stmt, rows, result, x); }
      GroupsArePermutation(db, ds, spec, selected, stmt, rows, result, []);
    }
  }

  // ---- the main results ----

  lemma OrderIsUnique(ds: Dataset, spec: Spec, selected: seq<Selected>, a: seq<Order>, b: seq<Order>)
    requires SelectedFor(ds, spec, selected) && AsAsked(spec, a) && AsAsked(spec, b)
    ensures a == b
  {
    hide AggregateOf;
    if spec.sort != [] {
      forall i | 0 <= i < |a| ensures a[i] == b[i] {
        SelectedKeys(ds, spec, selected, a[i].at);
        SelectedKeys(ds, spec, selected, b[i].at);
      }
    }
  }

  /** What an accepted specification compiles to. */
  lemma CompiledStates(catalog: map<string, Dataset>, spec: Spec, tenant: nat, today: Date, adapt: Adapter)
    returns (selected: seq<Selected>)
    requires CompileQuery(catalog, spec, tenant, today, adapt).Ok?
    ensures spec.dataset in catalog && FilterConditions(catalog[spec.dataset], adapt, spec.filters).Ok?
    ensures var c := CompileQuery(catalog, spec, tenant, today, adapt).value;
            && StatesSpec(catalog[spec.dataset], spec, selected, c.stmt)
            && c.stmt.conditions == AllConditions(catalog[spec.dataset], spec, tenant, today, adapt)
            && c.columns == ColumnsOf(selected) && c.sources == SourcesOf(selected)
  {
    hide FilterConditions, Year, HasDuplicates, AggregateOf, PeriodConditions, SelectedFor;
    var ds := catalog[spec.dataset];
    var dims := FindColumns(ds.columns, spec.columns).value;
    selected := Select(ds, dims, spec.aggregates).value;
    assert spec.aggregates[..|spec.aggregates|] == spec.aggregates;
    SelectIs(ds, spec, dims, |spec.aggregates|);
    WidthOf(ds, spec, selected);
    var order := OrderOf(selected, spec.sort).value;
    forall i | 0 <= i < |order|
      ensures order[i].at < |selected| && ResultKey(spec, order[i].at) == spec.sort[i].column
    {
      SelectedKeys(ds, spec, selected, order[i].at);
    }
  }

  lemma WidthOf(ds: Dataset, spec: Spec, selected: seq<Selected>)
    requires SelectedFor(ds, spec, selected)
    ensures |selected| == |spec.columns| + |spec.aggregates|
  {}

  /** For every accepted specification and every view, the statement returns exactly the answers to the
      specification over the wanted rows. */
  lemma CompilerPreservesMeaning(db: Db, catalog: map<string, Dataset>, spec: Spec, tenant: nat, today: Date,
                                 adapt: Adapter,
                                 view: seq<Row>, result: seq<seq<Value>>)
    requires CompileQuery(catalog, spec, tenant, today, adapt).Ok?
    requires GivesTyped(adapt) && Fits(catalog[spec.dataset], view)
    ensures IsResult(db, CompileQuery(catalog, spec, tenant, today, adapt).value.stmt, view, result) <==>
            IsAnswer(db, spec, WantedRows(db, catalog[spec.dataset], spec, tenant, today, adapt, view), result)
  {
    hide CompileQuery, GivesTyped, Fits, Tuples, HasContent, AllConditions, WantedRows, Where, SelectedFor;
    hide Sorted, InOrder, AsAsked, FilterConditions;
    var selected := CompiledStates(catalog, spec, tenant, today, adapt);
    var ds, stmt := catalog[spec.dataset], CompileQuery(catalog, spec, tenant, today, adapt).value.stmt;
    WhereIsWanted(db, ds, spec, tenant, today, adapt, view);
    WantedAreFromView(db, ds, spec, tenant, today, adapt, view);
    FitsPart(ds, view, WantedRows(db, ds, spec, tenant, today, adapt, view));
    ContentIs(db, ds, spec, selected, stmt, view, result);
    WidthOf(ds, spec, selected);
    forall order | AsAsked(spec, order) ensures order == stmt.order {
      OrderIsUnique(ds, spec, selected, order, stmt.order);
    }
    SortedMeansIt(db, stmt.order, |stmt.items|, result);
  }

  /** An extreme is of its column's type, and all else a number. */
  function ResultType(ds: Dataset, agg: Aggregate): ColumnType {
    if (agg.func.FMin? || agg.func.FMax?) && agg.column.Some? && FindColumn(ds.columns, agg.column.value).Some?
    then FindColumn(ds.columns, agg.column.value).value.ctype else NumberType
  }

  /** Items, result columns and sources go side by side under keys of their own: a chosen column with its
      catalog entry, an aggregate with none. */
  lemma ResultsAreAligned(catalog: map<string, Dataset>, spec: Spec, tenant: nat, today: Date, adapt: Adapter)
    requires CompileQuery(catalog, spec, tenant, today, adapt).Ok?
    ensures var c := CompileQuery(catalog, spec, tenant, today, adapt).value;
            && |c.stmt.items| == |c.columns| == |c.sources| == |spec.columns| + |spec.aggregates|
            && (forall i :: 0 <= i < |c.columns| ==> c.columns[i].key == c.stmt.items[i].key == ResultKey(spec, i))
            && (forall i, j :: 0 <= i < j < |c.columns| ==> c.columns[i].key != c.columns[j].key)
            && (forall i :: 0 <= i < |spec.columns| ==>
                 c.sources[i].Some? && c.sources[i] == FindColumn(catalog[spec.dataset].columns, spec.columns[i])
                 && c.stmt.items[i].expr == ColumnOf(spec.columns[i]) && c.columns[i].ctype == c.sources[i].value.ctype)
            && (forall i :: |spec.columns| <= i < |c.sources| ==> c.sources[i].None?)
            && (forall i :: 0 <= i < |spec.aggregates| ==>
                 c.columns[|spec.columns| + i].ctype == ResultType(catalog[spec.dataset], spec.aggregates[i]))
  {
    hide CompileQuery, AggregateOf, AllConditions, AsAsked, FilterConditions;
    var selected := CompiledStates(catalog, spec, tenant, today, adapt);
    var ds := catalog[spec.dataset];
    forall i | 0 <= i < |selected| ensures selected[i].item.key == ResultKey(spec, i) == selected[i].column.key {
      SelectedKeys(ds, spec, selected, i);
    }
    forall i | |spec.columns| <= i < |selected|
      ensures selected[i].source.None?
              && selected[i].column.ctype == ResultType(ds, spec.aggregates[i - |spec.columns|])
    {
      AggregateIsTyped(ds, spec.aggregates[i - |spec.columns|]);
    }
  }

  lemma AggregateIsTyped(ds: Dataset, agg: Aggregate)
    requires AggregateOf(ds, agg).Ok?
    ensures AggregateOf(ds, agg).value.source.None?
    ensures AggregateOf(ds, agg).value.column.ctype == ResultType(ds, agg)
  {}
}
