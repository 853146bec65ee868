/** The relational statements the report compiler produces, with the meaning SQL gives them. */
module ReportSql {
  import LikePattern

  datatype Value = Null | Text(text: string) | Number(num: real) | Day(day: int) | Instant(at: int) | Flag(flag: bool)

  /** A row of a report view. */
  datatype Row = Row(tenant: nat, cells: map<string, Value>)

  /** How the database compares text: case folding for ILIKE and the order of its collation. */
  datatype Db = Db(fold: char -> char, textLess: (string, string) -> bool)

  function Cell(r: Row, key: string): Value { if key in r.cells then r.cells[key] else Null }

  predicate Less(db: Db, a: Value, b: Value) {
    match (a, b)
    case (Text(x), Text(y)) => db.textLess(x, y)
    case (Number(x), Number(y)) => x < y
    case (Day(x), Day(y)) => x < y
    case (Instant(x), Instant(y)) => x < y
    case (Flag(x), Flag(y)) => !x && y
    case _ => false
  }

  // ---- conditions in three-valued logic ----

  datatype Truth = IsTrue | IsFalse | IsUnknown

  function Truly(b: bool): Truth { if b then IsTrue else IsFalse }

  function And3(a: Truth, b: Truth): Truth {
    if a.IsFalse? || b.IsFalse? then IsFalse else if a.IsTrue? && b.IsTrue? then IsTrue else IsUnknown
  }

  function Not3(a: Truth): Truth { match a case IsTrue => IsFalse case IsFalse => IsTrue case IsUnknown => IsUnknown }

  function Or3(a: Truth, b: Truth): Truth { Not3(And3(Not3(a), Not3(b))) }

  datatype Comparison = Equal | NotEqual | Greater | GreaterOrEqual | Smaller | SmallerOrEqual

  datatype Condition =
    | OfTenant(tenant: nat)
    | Compare(key: string, cmp: Comparison, value: Value)
    | Between(key: string, lo: Value, hi: Value)
    | In(key: string, values: seq<Value>)
    | NotIn(key: string, values: seq<Value>)
    | ILike(key: string, pattern: string)
    | IsNull(key: string)
    | IsNotNull(key: string)

  function Comparing(db: Db, cmp: Comparison, a: Value, b: Value): Truth {
    if a.Null? || b.Null? then IsUnknown else
      match cmp
      case Equal => Truly(a == b)
      case NotEqual => Truly(a != b)
      case Greater => Truly(Less(db, b, a))
      case GreaterOrEqual => Truly(a == b || Less(db, b, a))
      case Smaller => Truly(Less(db, a, b))
      case SmallerOrEqual => Truly(a == b || Less(db, a, b))
  }

  function AnyEqual(db: Db, a: Value, values: seq<Value>): Truth {
    if values == [] then IsFalse
    else Or3(AnyEqual(db, a, values[..|values| - 1]), Comparing(db, Equal, a, values[|values| - 1]))
  }

  function Holds(db: Db, c: Condition, r: Row): Truth {
    match c
    case OfTenant(tenant) => Truly(r.tenant == tenant)
    case Compare(key, cmp, value) => Comparing(db, cmp, Cell(r, key), value)
    case Between(key, lo, hi) =>
      And3(Comparing(db, GreaterOrEqual, Cell(r, key), lo), Comparing(db, SmallerOrEqual, Cell(r, key), hi))
    case In(key, values) => AnyEqual(db, Cell(r, key), values)
    case NotIn(key, values) => Not3(AnyEqual(db, Cell(r, key), values))
    case ILike(key, pattern) =>
      if Cell(r, key).Text? then Truly(LikePattern.Like(Cell(r, key).text, pattern, db.fold)) else IsUnknown
    case IsNull(key) => Truly(Cell(r, key).Null?)
    case IsNotNull(key) => Truly(!Cell(r, key).Null?)
  }

  predicate KeepsRow(db: Db, conditions: seq<Condition>, r: Row) {
    forall i :: 0 <= i < |conditions| ==> Holds(db, conditions[i], r).IsTrue?
  }

  /** WHERE */
  function Where(db: Db, conditions: seq<Condition>, rows: seq<Row>): seq<Row> {
    if rows == [] then [] else
      var rest := Where(db, conditions, rows[..|rows| - 1]);
      if KeepsRow(db, conditions, rows[|rows| - 1]) then rest + [rows[|rows| - 1]] else rest
  }

  // ---- expressions over the rows of a group ----

  datatype Expr = ColumnOf(key: string) | CountRows | CountOf(key: string) | CountDistinctOf(key: string)
                | SumOf(key: string) | RoundedAverageOf(key: string) | MinOf(key: string) | MaxOf(key: string)

  /** The values of a column that are not null. */
  function Values(rows: seq<Row>, key: string): seq<Value> {
    if rows == [] then [] else
      var rest, v := Values(rows[..|rows| - 1], key), Cell(rows[|rows| - 1], key);
      if v.Null? then rest else rest + [v]
  }

  function Sum(values: seq<Value>): real {
    if values == [] then 0.0 else
      var v := values[|values| - 1];
      Sum(values[..|values| - 1]) + (if v.Number? then v.num else 0.0)
  }

  /** The nearest integer; halves go away from zero. */
  function Nearest(y: real): int { if y >= 0.0 then (y + 0.5).Floor else -(-y + 0.5).Floor }

  /** `round(x, 2)` of a numeric. */
  function Round2(x: real): real { Nearest(x * 100.0) as real / 100.0 }

  /** The first of the smallest, or of the greatest, values. */
  function Extreme(db: Db, values: seq<Value>, greatest: bool): Value {
    if values == [] then Null else
      var best, v := Extreme(db, values[..|values| - 1], greatest), values[|values| - 1];
      if best.Null? || (if greatest then Less(db, best, v) else Less(db, v, best)) then v else best
  }

  function EvalExpr(db: Db, e: Expr, rows: seq<Row>): Value {
    match e
    case ColumnOf(key) => if rows == [] then Null else Cell(rows[0], key)
    case CountRows => Number(|rows| as real)
    case CountOf(key) => Number(|Values(rows, key)| as real)
    case CountDistinctOf(key) => Number(|set v | v in Values(rows, key)| as real)
    case SumOf(key) => if Values(rows, key) == [] then Null else Number(Sum(Values(rows, key)))
    case RoundedAverageOf(key) =>
      var values := Values(rows, key);
      if values == [] then Null else Number(Round2(Sum(values) / |values| as real))
    case MinOf(key) => Extreme(db, Values(rows, key), false)
    case MaxOf(key) => Extreme(db, Values(rows, key), true)
  }

  // ---- statements ----

  datatype Item = Item(key: string, expr: Expr)

  /** Sorting by one of the selected items. */
  datatype Order = Order(at: nat, descending: bool)

  /** SELECT items FROM view WHERE conditions GROUP BY groupBy ORDER BY order NULLS LAST */
  datatype Stmt = Stmt(conditions: seq<Condition>, items: seq<Item>, groupBy: seq<string>, order: seq<Order>)

  predicate Aggregates(stmt: Stmt) {
    stmt.groupBy != [] || exists i :: 0 <= i < |stmt.items| && !stmt.items[i].expr.ColumnOf?
  }

  function GroupKey(groupBy: seq<string>, r: Row): (k: seq<Value>)
    ensures |k| == |groupBy|
    ensures forall i :: 0 <= i < |k| ==> k[i] == Cell(r, groupBy[i])
  {
    seq(|groupBy|, i requires 0 <= i < |groupBy| => Cell(r, groupBy[i]))
  }

  /** The distinct group keys, in the order they first occur. */
  function GroupKeys(groupBy: seq<string>, rows: seq<Row>): seq<seq<Value>> {
    if rows == [] then [] else
      var rest, k := GroupKeys(groupBy, rows[..|rows| - 1]), GroupKey(groupBy, rows[|rows| - 1]);
      if k in rest then rest else rest + [k]
  }

  function Members(groupBy: seq<string>, rows: seq<Row>, key: seq<Value>): seq<Row> {
    if rows == [] then [] else
      var rest := Members(groupBy, rows[..|rows| - 1], key);
      if GroupKey(groupBy, rows[|rows| - 1]) == key then rest + [rows[|rows| - 1]] else rest
  }

  function TupleOf(db: Db, items: seq<Item>, rows: seq<Row>): (t: seq<Value>)
    ensures |t| == |items|
    ensures forall i :: 0 <= i < |t| ==> t[i] == EvalExpr(db, items[i].expr, rows)
  {
    seq(|items|, i requires 0 <= i < |items| => EvalExpr(db, items[i].expr, rows))
  }

  function PlainTuples(db: Db, items: seq<Item>, rows: seq<Row>): seq<seq<Value>> {
    if rows == [] then [] else PlainTuples(db, items, rows[..|rows| - 1]) + [TupleOf(db, items, [rows[|rows| - 1]])]
  }

  function GroupTuples(db: Db, stmt: Stmt, rows: seq<Row>, keys: seq<seq<Value>>): (ts: seq<seq<Value>>)
    ensures |ts| == |keys|
    ensures forall i :: 0 <= i < |ts| ==> ts[i] == TupleOf(db, stmt.items, Members(stmt.groupBy, rows, keys[i]))
  {
    seq(|keys|, i requires 0 <= i < |keys| => TupleOf(db, stmt.items, Members(stmt.groupBy, rows, keys[i])))
  }

  /** The rows of the result before they are sorted. */
  function Tuples(db: Db, stmt: Stmt, view: seq<Row>): seq<seq<Value>> {
    var rows := Where(db, stmt.conditions, view);
    if !Aggregates(stmt) then PlainTuples(db, stmt.items, rows)
    else if stmt.groupBy == [] then [TupleOf(db, stmt.items, rows)]
    else GroupTuples(db, stmt, rows, GroupKeys(stmt.groupBy, rows))
  }

  /** `a` goes strictly before `b`; null goes last in either direction. */
  predicate SortsBefore(db: Db, a: Value, b: Value, descending: bool) {
    !a.Null? && (b.Null? || (if descending then Less(db, b, a) else Less(db, a, b)))
  }

  predicate RowBefore(db: Db, order: seq<Order>, x: seq<Value>, y: seq<Value>)
    requires forall i :: 0 <= i < |order| ==> order[i].at < |x| && order[i].at < |y|
  {
    order != [] &&
    (SortsBefore(db, x[order[0].at], y[order[0].at], order[0].descending)
     || (!SortsBefore(db, y[order[0].at], x[order[0].at], order[0].descending) && RowBefore(db, order[1..], x, y)))
  }

  predicate Sorted(db: Db, order: seq<Order>, width: nat, result: seq<seq<Value>>) {
    && (forall i :: 0 <= i < |result| ==> |result[i]| == width)
    && (forall i :: 0 <= i < |order| ==> order[i].at < width)
    && (forall i, j :: 0 <= i < j < |result| ==> !RowBefore(db, order, result[j], result[i]))
  }

  /** What the database may return: the tuples, sorted, in any order among equals. */
  predicate IsResult(db: Db, stmt: Stmt, view: seq<Row>, result: seq<seq<Value>>) {
    multiset(result) == multiset(Tuples(db, stmt, view)) && Sorted(db, stmt.order, |stmt.items|, result)
  }
}
