/** Cursors: the sort values of the last row as text, and pagination by it (backend/app/core/pagination.py). */
module Cursor {
  import opened Common
  import Base64
  import opened Keyset

  const MAX_CURSOR_LENGTH: nat := 512

  /** A UUID is a number of 128 bits. */
  type Uuid = x: int | 0 <= x < 0x1_0000_0000_0000_0000_0000_0000_0000_0000

  /** The sort values by their class; a float is given by its bits, dates and ids by numbers. */
  datatype CursorValue = VBool(flag: bool) | VInt(num: int) | VFloat(bits: nat) | VStr(text: string)
                       | VDateTime(at: int) | VDate(day: int) | VUuid(uuid: Uuid) | VDecimal(digits: int, exponent: int)

  datatype PyClass = PyBool | PyInt | PyFloat | PyStr | PyDateTime | PyDate | PyUuid | PyDecimal

  /** `isinstance`: a bool is also an int, and a datetime also a date. */
  predicate IsInstance(v: CursorValue, c: PyClass) {
    match v
    case VBool(_) => c.PyBool? || c.PyInt?
    case VInt(_) => c.PyInt?
    case VFloat(_) => c.PyFloat?
    case VStr(_) => c.PyStr?
    case VDateTime(_) => c.PyDateTime? || c.PyDate?
    case VDate(_) => c.PyDate?
    case VUuid(_) => c.PyUuid?
    case VDecimal(_, _) => c.PyDecimal?
  }

  datatype Json = JNull | JBool(flag: bool) | JInt(num: int) | JFloat(bits: nat) | JStr(text: string)
                | JList(items: seq<Json>) | JObject(keys: seq<string>)

  /** Reading gives a value, an exception the reader of cursors catches, or another one. */
  datatype Reading<T> = Got(value: T) | Refused | Raised

  /** The text forms this module does not define: JSON, and the printing and reading of single values. */
  datatype Texts = Texts(dumps: Json -> string, loads: string -> Option<Json>,
                         printed: CursorValue -> string, read: (string, Json) -> Reading<CursorValue>)

  /** `_encode_value`: the tag by the first class that fits, and the value as JSON. */
  function EncodeValue(t: Texts, v: CursorValue): Json {
    if IsInstance(v, PyBool) then Tagged("b", JBool(v.flag))
    else if IsInstance(v, PyInt) then Tagged("i", JInt(v.num))
    else if IsInstance(v, PyFloat) then Tagged("f", JFloat(v.bits))
    else if IsInstance(v, PyStr) then Tagged("s", JStr(v.text))
    else if IsInstance(v, PyDateTime) then Tagged("dt", JStr(t.printed(v)))
    else if IsInstance(v, PyDate) then Tagged("d", JStr(t.printed(v)))
    else if IsInstance(v, PyUuid) then Tagged("u", JStr(t.printed(v)))
    else Tagged("n", JStr(t.printed(v)))
  }

  function Tagged(tag: string, raw: Json): Json { JList([JStr(tag), raw]) }

  /** Which class the reader of a tag makes. */
  function ClassOf(tag: string): Option<PyClass> {
    match tag
    case "b" => Some(PyBool)
    case "i" => Some(PyInt)
    case "f" => Some(PyFloat)
    case "s" => Some(PyStr)
    case "dt" => Some(PyDateTime)
    case "d" => Some(PyDate)
    case "u" => Some(PyUuid)
    case "n" => Some(PyDecimal)
    case _ => None
  }

  function ExactClass(v: CursorValue): PyClass {
    match v
    case VBool(_) => PyBool
    case VInt(_) => PyInt
    case VFloat(_) => PyFloat
    case VStr(_) => PyStr
    case VDateTime(_) => PyDateTime
    case VDate(_) => PyDate
    case VUuid(_) => PyUuid
    case VDecimal(_, _) => PyDecimal
  }

  /** The tag says the value's own class: subclasses are asked for before their bases. */
  lemma TagIsExact(t: Texts, v: CursorValue)
    ensures EncodeValue(t, v).JList? && |EncodeValue(t, v).items| == 2 && EncodeValue(t, v).items[0].JStr?
    ensures ClassOf(EncodeValue(t, v).items[0].text) == Some(ExactClass(v))
  {}

  // ---- JSON in and out ----

  /** Iterating over a decoded JSON value; numbers, booleans and null cannot be iterated. */
  function Elements(j: Json): Option<seq<Json>> {
    match j
    case JList(items) => Some(items)
    case JStr(text) => Some(seq(|text|, i requires 0 <= i < |text| => JStr([text[i]])))
    case JObject(keys) => Some(seq(|keys|, i requires 0 <= i < |keys| => JStr(keys[i])))
    case _ => None
  }

  /** `_decode_value` of one `tag, raw` pair; the reader of ids calls a string method on all but null. */
  function DecodeItem(t: Texts, j: Json): Reading<CursorValue> {
    var pair := Elements(j);
    if pair.None? || |pair.value| != 2 then Refused
    else if !pair.value[0].JStr? || ClassOf(pair.value[0].text).None? then Refused
    else
      var tag, raw := pair.value[0].text, pair.value[1];
      match (ClassOf(tag).value, raw)
      case (PyBool, JBool(b)) => Got(VBool(b))
      case (PyInt, JInt(i)) => Got(VInt(i))
      case (PyFloat, JFloat(f)) => Got(VFloat(f))
      case (PyStr, JStr(s)) => Got(VStr(s))
      case (PyUuid, JStr(_)) => t.read(tag, raw)
      case (PyUuid, JNull) => Refused
      case (PyUuid, _) => Raised
      case _ => t.read(tag, raw)
  }

  function EncodeAll(t: Texts, values: seq<CursorValue>): (r: seq<Json>)
    ensures |r| == |values| && forall i :: 0 <= i < |r| ==> r[i] == EncodeValue(t, values[i])
  {
    seq(|values|, i requires 0 <= i < |values| => EncodeValue(t, values[i]))
  }

  /** The items in their order; the first that cannot be read ends it. */
  function DecodeAll(t: Texts, items: seq<Json>): (r: Reading<seq<CursorValue>>)
    ensures r.Got? ==> |r.value| == |items|
  {
    if items == [] then Got([]) else
      var rest := DecodeAll(t, items[..|items| - 1]);
      if !rest.Got? then rest else
        match DecodeItem(t, items[|items| - 1])
        case Got(v) => Got(rest.value + [v])
        case Refused => Refused
        case Raised => Raised
  }

  predicate FirstUnread(t: Texts, items: seq<Json>, i: int) {
    0 <= i < |items| && !DecodeItem(t, items[i]).Got? && forall j :: 0 <= j < i ==> DecodeItem(t, items[j]).Got?
  }

  /** The first item that cannot be read raises what the reader of cursors does not catch. */
  predicate RaisesFirst(t: Texts, items: seq<Json>) {
    exists i :: 0 <= i < |items| && FirstUnread(t, items, i) && DecodeItem(t, items[i]).Raised?
  }

  lemma UnreadInPrefix(t: Texts, items: seq<Json>, i: nat)
    requires i < |items| - 1
    ensures FirstUnread(t, items, i) <==> FirstUnread(t, items[..|items| - 1], i)
  {
    hide DecodeItem;
    var before := items[..|items| - 1];
    assert forall j :: 0 <= j <= i ==> before[j] == items[j];
  }

  lemma {:induction false} FirstUnreadDecides(t: Texts, items: seq<Json>)
    ensures DecodeAll(t, items).Got? <==> forall i :: 0 <= i < |items| ==> DecodeItem(t, items[i]).Got?
    ensures DecodeAll(t, items).Raised? <==> RaisesFirst(t, items)
  {
    hide DecodeItem;
    if items != [] {
      var n := |items| - 1;
      var before := items[..n];
      FirstUnreadDecides(t, before);
      if DecodeAll(t, before).Raised? {
        var i :| 0 <= i < n && FirstUnread(t, before, i) && DecodeItem(t, before[i]).Raised?;
        UnreadInPrefix(t, items, i);
      } else if RaisesFirst(t, items) {
        var i :| 0 <= i <= n && FirstUnread(t, items, i) && DecodeItem(t, items[i]).Raised?;
        if i < n { UnreadInPrefix(t, items, i); }
      }
      assert DecodeAll(t, before).Got? ==> (FirstUnread(t, items, n) <==> !DecodeItem(t, items[n]).Got?);
    }
  }

  // ---- text in and out ----

  predicate IsAscii(s: string) { forall i :: 0 <= i < |s| ==> s[i] as int < 128 }

  /** `str.encode` of text without characters beyond ASCII; others become something no digit is. */
  function Bytes(s: string): (r: seq<Base64.Byte>)
    ensures |r| == |s|
    ensures IsAscii(s) ==> forall i :: 0 <= i < |s| ==> r[i] as int == s[i] as int
  {
    seq(|s|, i requires 0 <= i < |s| => if s[i] as int < 128 then s[i] as int as Base64.Byte else 255)
  }

  function Chars(bytes: seq<Base64.Byte>): (r: string)
    ensures |r| == |bytes| && forall i :: 0 <= i < |r| ==> r[i] as int == bytes[i] as int
  {
    seq(|bytes|, i requires 0 <= i < |bytes| => bytes[i] as int as char)
  }

  function Payload(t: Texts, values: seq<CursorValue>): string { t.dumps(JList(EncodeAll(t, values))) }

  function CursorOf(json: string): string { Base64.Unpadded(Base64.Encode(Bytes(json))) }

  function EncodeCursor(t: Texts, values: seq<CursorValue>): string { CursorOf(Payload(t, values)) }

  /** `InvalidCursorError`, or an exception that `decode_cursor` lets through. */
  datatype CursorError = InvalidCursor | Uncaught

  function DecodeCursor(t: Texts, cursor: string, size: nat): Result<seq<CursorValue>, CursorError> {
    if |cursor| > MAX_CURSOR_LENGTH then Err(InvalidCursor)
    else
      var bytes := Base64.Decode(Base64.Padded(cursor));
      if bytes.None? then Err(InvalidCursor) else
        var json := t.loads(Chars(bytes.value));
        if json.None? || Elements(json.value).None? then Err(InvalidCursor) else
          var values := DecodeAll(t, Elements(json.value).value);
          match values
          case Got(vs) => if |vs| != size then Err(InvalidCursor) else Ok(vs)
          case Refused => Err(InvalidCursor)
          case Raised => Err(Uncaught)
  }

  /** The JSON a cursor text stands for, if it gets that far. */
  function JsonOf(t: Texts, cursor: string): Option<Json> {
    var bytes := Base64.Decode(Base64.Padded(cursor));
    if |cursor| > MAX_CURSOR_LENGTH || bytes.None? then None else t.loads(Chars(bytes.value))
  }

  /** Whatever text comes in, the error is the one for cursors iff no item raises another before one is refused. */
  lemma UncaughtExactly(t: Texts, cursor: string, size: nat)
    ensures var json := JsonOf(t, cursor);
            DecodeCursor(t, cursor, size) == Err(Uncaught) <==>
            json.Some? && Elements(json.value).Some? && RaisesFirst(t, Elements(json.value).value)
  {
    hide DecodeItem, DecodeAll, RaisesFirst, Base64.Decode, Base64.Padded;
    var json := JsonOf(t, cursor);
    if json.Some? && Elements(json.value).Some? { FirstUnreadDecides(t, Elements(json.value).value); }
  }

  /** The text forms lose nothing: JSON reads back and is ASCII, and each printed value reads back under its tag. */
  ghost predicate Lossless(t: Texts) {
    (forall values: seq<CursorValue> :: JsonReadsBack(t, values)) && (forall v: CursorValue :: ReadsUnderTag(t, v))
  }

  predicate JsonReadsBack(t: Texts, values: seq<CursorValue>) {
    IsAscii(Payload(t, values)) && t.loads(Payload(t, values)) == Some(JList(EncodeAll(t, values)))
  }

  predicate ReadsUnderTag(t: Texts, v: CursorValue) { t.read(TagOf(t, v), EncodeValue(t, v).items[1]) == Got(v) }

  function TagOf(t: Texts, v: CursorValue): string {
    TagIsExact(t, v);
    EncodeValue(t, v).items[0].text
  }

  lemma ItemReadsBack(t: Texts, v: CursorValue)
    requires Lossless(t)
    ensures DecodeItem(t, EncodeValue(t, v)) == Got(v)
  {
    TagIsExact(t, v);
    assert ReadsUnderTag(t, v);
  }

  lemma {:induction false} ItemsReadBack(t: Texts, values: seq<CursorValue>)
    requires Lossless(t)
    ensures DecodeAll(t, EncodeAll(t, values)) == Got(values)
  {
    hide DecodeItem, EncodeValue, Lossless;
    if values == [] {
      assert EncodeAll(t, values) == [];
    } else {
      var n := |values| - 1;
      assert EncodeAll(t, values)[..n] == EncodeAll(t, values[..n]);
      ItemsReadBack(t, values[..n]);
      ItemReadsBack(t, values[n]);
      assert values[..n] + [values[n]] == values;
    }
  }

  lemma CharsReadBack(s: string)
    requires IsAscii(s)
    ensures Chars(Bytes(s)) == s
  {}

  /** A cursor reads back, for the number of sort columns it has, iff its JSON has at most 384 characters. */
  lemma CursorRoundTrip(t: Texts, values: seq<CursorValue>, size: nat)
    requires Lossless(t)
    ensures |EncodeCursor(t, values)| <= MAX_CURSOR_LENGTH <==> |Payload(t, values)| <= 384
    ensures DecodeCursor(t, EncodeCursor(t, values), size) ==
            if |Payload(t, values)| <= 384 && size == |values| then Ok(values) else Err(InvalidCursor)
  {
    hide EncodeValue, DecodeItem, Base64.Decode, Base64.Encode, Base64.Padded, Base64.Unpadded, DecodeAll;
    var payload := Payload(t, values);
    assert JsonReadsBack(t, values);
    Base64.RoundTrip(Bytes(payload));
    CharsReadBack(payload);
    ItemsReadBack(t, values);
  }

  lemma JsonComesBack(t: Texts, text: string)
    requires IsAscii(text)
    ensures JsonOf(t, CursorOf(text)) == if |text| <= 384 then t.loads(text) else None
  {
    hide Base64.Decode, Base64.Encode, Base64.Padded, Base64.Unpadded;
    Base64.RoundTrip(Bytes(text));
    CharsReadBack(text);
  }

  /** An id that is a number, a boolean, a list or an object is such a text: the caller gets no cursor error. */
  lemma NonTextIdIsUncaught(t: Texts, raw: Json, size: nat)
    requires !raw.JStr? && !raw.JNull?
    requires var json := JList([Tagged("u", raw)]);
             IsAscii(t.dumps(json)) && t.loads(t.dumps(json)) == Some(json) && |t.dumps(json)| <= 384
    ensures DecodeCursor(t, CursorOf(t.dumps(JList([Tagged("u", raw)]))), size) == Err(Uncaught)
  {
    hide DecodeCursor, CursorOf, JsonOf;
    var json := JList([Tagged("u", raw)]);
    JsonComesBack(t, t.dumps(json));
    assert FirstUnread(t, json.items, 0) && DecodeItem(t, json.items[0]).Raised?;
    UncaughtExactly(t, CursorOf(t.dumps(json)), size);
  }

  // ---- how long the text gets ----

  /** The characters `json.dumps` writes for one: itself, a short escape, `\uXXXX`, or two of those. */
  function CharLength(c: char): nat {
    var n := c as int;
    if c == '"' || c == '\\' || 8 <= n <= 10 || 12 <= n <= 13 then 2
    else if 32 <= n <= 126 then 1
    else if n <= 0xFFFF then 6
    else 12
  }

  function EscapedLength(s: string): nat {
    if s == "" then 0 else CharLength(s[0]) + EscapedLength(s[1..])
  }

  predicate IsText(t: Texts, v: CursorValue) { EncodeValue(t, v).items[1].JStr? }

  /** `["tag","text"]` */
  function ItemLength(t: Texts, v: CursorValue): nat
    requires IsText(t, v)
  {
    |TagOf(t, v)| + EscapedLength(EncodeValue(t, v).items[1].text) + 7
  }

  /** The items of a list, with a comma after each but the last. */
  function ItemsLength(t: Texts, values: seq<CursorValue>): nat
    requires forall i :: 0 <= i < |values| ==> IsText(t, values[i])
  {
    if values == [] then 0 else
      ItemLength(t, values[0]) + (if |values| > 1 then 1 else 0) + ItemsLength(t, values[1..])
  }

  predicate IsCompact(t: Texts, values: seq<CursorValue>) {
    (forall i :: 0 <= i < |values| ==> IsText(t, values[i])) ==> |Payload(t, values)| == 2 + ItemsLength(t, values)
  }

  /** JSON without spaces, in ASCII, and UUIDs in their 36 characters. */
  ghost predicate Compact(t: Texts) {
    (forall values: seq<CursorValue> :: IsCompact(t, values))
    && (forall u: Uuid :: EscapedLength(t.printed(VUuid(u))) == 36)
  }

  lemma NameAndIdLength(t: Texts, name: string, id: Uuid)
    requires Compact(t)
    ensures |Payload(t, [VStr(name), VUuid(id)])| == EscapedLength(name) + 55
  {
    hide Payload, EscapedLength, CharLength;
    var values := [VStr(name), VUuid(id)];
    assert IsText(t, values[0]) && IsText(t, values[1]) && IsCompact(t, values);
    assert values[1..] == [VUuid(id)] && [VUuid(id)][1..] == [];
    assert |TagOf(t, VStr(name))| == 1 && |TagOf(t, VUuid(id))| == 1;
    assert ItemsLength(t, [VUuid(id)]) == ItemLength(t, VUuid(id));
  }

  /** The cursor after a row listed by name and id reads back iff the name takes at most 329 characters in JSON. */
  lemma NameCursor(t: Texts, name: string, id: Uuid)
    requires Lossless(t) && Compact(t)
    ensures DecodeCursor(t, EncodeCursor(t, [VStr(name), VUuid(id)]), 2) ==
            if EscapedLength(name) <= 329 then Ok([VStr(name), VUuid(id)]) else Err(InvalidCursor)
  {
    hide Lossless, Compact, DecodeCursor, EncodeCursor, Payload, EscapedLength;
    NameAndIdLength(t, name, id);
    CursorRoundTrip(t, [VStr(name), VUuid(id)], 2);
  }

  function Repeated(c: char, n: nat): (s: string)
    ensures |s| == n
  {
    if n == 0 then "" else [c] + Repeated(c, n - 1)
  }

  lemma {:induction false} RepeatedLength(c: char, n: nat)
    ensures EscapedLength(Repeated(c, n)) == n * CharLength(c)
  {
    hide CharLength;
    if n > 0 {
      assert Repeated(c, n)[1..] == Repeated(c, n - 1);
      RepeatedLength(c, n - 1);
      assert n * CharLength(c) == (n - 1) * CharLength(c) + CharLength(c);
    }
  }

  /** A name of 70 letters outside ASCII, of the 120 a name may have, is too long for a cursor. */
  lemma LongNameIsRefused(t: Texts, id: Uuid)
    requires Lossless(t) && Compact(t)
    ensures var name := Repeated('\U{E9}', 70);
            |name| == 70 && DecodeCursor(t, EncodeCursor(t, [VStr(name), VUuid(id)]), 2) == Err(InvalidCursor)
  {
    hide Lossless, Compact, DecodeCursor, EncodeCursor, EscapedLength, Repeated;
    RepeatedLength('\U{E9}', 70);
    NameCursor(t, Repeated('\U{E9}', 70), id);
  }

  // ---- pages by cursor text ----

  datatype TextPage = TextPage(items: seq<seq<CursorValue>>, next: Option<string>)

  datatype PageError = LimitInvalid | CursorInvalid | CursorUncaught

  /** `paginate` as the API calls it. */
  ghost function PaginateText(t: Texts, before: (seq<CursorValue>, seq<CursorValue>) -> bool,
                              table: set<seq<CursorValue>>,
                              size: nat, cursor: Option<string>, limit: nat): Result<TextPage, PageError>
    requires Orders(before)
  {
    if !(1 <= limit <= MAX_LIMIT) then Err(LimitInvalid)
    else if cursor.Some? && DecodeCursor(t, cursor.value, size) == Err(InvalidCursor) then Err(CursorInvalid)
    else if cursor.Some? && DecodeCursor(t, cursor.value, size) == Err(Uncaught) then Err(CursorUncaught)
    else
      var last := if cursor.Some? then Some(DecodeCursor(t, cursor.value, size).value) else None;
      var page := Paginate(before, table, last, limit);
      Ok(TextPage(page.items, if page.next.Some? then Some(EncodeCursor(t, page.next.value)) else None))
  }

  /** The text of the next cursor leads to the page its values lead to; it is refused iff the JSON of those
      values has more than 384 characters, and then the listing cannot be followed past this page. */
  lemma NextPageByText(t: Texts, before: (seq<CursorValue>, seq<CursorValue>) -> bool, table: set<seq<CursorValue>>,
                       later: set<seq<CursorValue>>, size: nat, cursor: Option<seq<CursorValue>>, limit: nat)
    requires Lossless(t) && Orders(before) && 1 <= limit <= MAX_LIMIT
    requires forall k :: k in table ==> |k| == size
    requires Paginate(before, table, cursor, limit).next.Some?
    ensures var last := Paginate(before, table, cursor, limit).next.value;
            var next := PaginateText(t, before, later, size, Some(EncodeCursor(t, last)), limit);
            if |Payload(t, last)| <= 384
            then next.Ok? && next.value.items == Paginate(before, later, Some(last), limit).items
            else next == Err(CursorInvalid)
  {
    hide Lossless, DecodeCursor, EncodeCursor, Payload, Paginate;
    PageInOrder(before, table, cursor, limit);
    var last := Paginate(before, table, cursor, limit).next.value;
    CursorRoundTrip(t, last, size);
  }

  /** No cursor, or a text that reads back as the row. */
  predicate StandsFor(t: Texts, cursor: Option<string>, size: nat, last: Option<seq<CursorValue>>) {
    if cursor.None? then last.None? else last.Some? && DecodeCursor(t, cursor.value, size) == Ok(last.value)
  }

  /** A page by text: refused for its limit or its cursor; else the first rows beyond the cursor, and a next one iff
      rows are left, which reads back as the last row of the page iff that fits, and is refused if not. */
  lemma PageByText(t: Texts, before: (seq<CursorValue>, seq<CursorValue>) -> bool, table: set<seq<CursorValue>>,
                   size: nat, cursor: Option<string>, last: Option<seq<CursorValue>>, limit: nat)
    requires Lossless(t) && Orders(before) && forall k :: k in table ==> |k| == size
    ensures cursor.Some? && 1 <= limit <= 200 ==>
              match DecodeCursor(t, cursor.value, size)
              case Err(InvalidCursor) => PaginateText(t, before, table, size, cursor, limit) == Err(CursorInvalid)
              case Err(Uncaught) => PaginateText(t, before, table, size, cursor, limit) == Err(CursorUncaught)
              case Ok(_) => true
    ensures StandsFor(t, cursor, size, last) ==>
              var page, sorted := PaginateText(t, before, table, size, cursor, limit), SortBy(before,
                                                                                              Beyond(before, table,
                                                                                                     last));
              if !(1 <= limit <= 200) then page == Err(LimitInvalid)
              else if |sorted| <= limit then page == Ok(TextPage(sorted, None))
              else
                && page.Ok? && page.value.items == sorted[..limit] && page.value.next.Some?
                && DecodeCursor(t, page.value.next.value, size) ==
                   if |Payload(t, sorted[limit - 1])| <= 384 then Ok(sorted[limit - 1]) else Err(InvalidCursor)
  {
    hide Lossless, DecodeCursor, EncodeCursor, Payload, Paginate, SortBy, Orders, Beyond;
    if StandsFor(t, cursor, size, last) && 1 <= limit <= 200 {
      PageIs(before, table, last, limit);
      var sorted := SortBy(before, Beyond(before, table, last));
      if |sorted| > limit {
        SortedIsFromTable(before, table, last, sorted[limit - 1]);
        CursorRoundTrip(t, sorted[limit - 1], size);
      }
    }
  }

  lemma SortedIsFromTable(before: (seq<CursorValue>, seq<CursorValue>) -> bool, table: set<seq<CursorValue>>,
                          last: Option<seq<CursorValue>>, k: seq<CursorValue>)
    requires Orders(before) && k in SortBy(before, Beyond(before, table, last))
    ensures k in table
  {}

  // ---- following the texts ----

  /** The rows of the pages from a cursor on, asking with each next text until there is none or it is refused. */
  ghost function Follow(t: Texts, before: (seq<CursorValue>, seq<CursorValue>) -> bool, table: set<seq<CursorValue>>,
                        size: nat, cursor: Option<string>, last: Option<seq<CursorValue>>, limit: nat)
    : seq<seq<CursorValue>>
    requires Lossless(t) && Orders(before) && 1 <= limit <= 200 && forall k :: k in table ==> |k| == size
    requires StandsFor(t, cursor, size, last)
    decreases |Beyond(before, table, last)|
  {
    PageByText(t, before, table, size, cursor, last, limit);
    PageIs(before, table, last, limit);
    var page := PaginateText(t, before, table, size, cursor, limit).value;
    if page.next.None? || DecodeCursor(t, page.next.value, size).Err? then page.items
    else
      var reached := DecodeCursor(t, page.next.value, size).value;
      page.items + Follow(t, before, table, size, page.next, Some(reached), limit)
  }

  /** The last row of each page but the last one has JSON that fits. */
  ghost predicate PageEndsFit(t: Texts, rows: seq<seq<CursorValue>>, limit: nat)
    requires 1 <= limit
    decreases |rows|
  {
    |rows| > limit ==> |Payload(t, rows[limit - 1])| <= 384 && PageEndsFit(t, rows[limit..], limit)
  }

  /** Following the texts yields every row once, in order, iff each row handed out as a cursor fits; if not, rows
      are missing. */
  lemma {:induction false} FollowIsComplete(t: Texts, before: (seq<CursorValue>, seq<CursorValue>) -> bool,
                                            table: set<seq<CursorValue>>, size: nat, cursor: Option<string>,
                                            last: Option<seq<CursorValue>>, limit: nat)
    requires Lossless(t) && Orders(before) && 1 <= limit <= 200 && forall k :: k in table ==> |k| == size
    requires StandsFor(t, cursor, size, last)
    ensures var rows, sorted := Follow(t, before, table, size, cursor, last, limit), SortBy(before,
                                                                                            Beyond(before, table,
                                                                                                   last));
            if PageEndsFit(t, sorted, limit) then rows == sorted else rows < sorted
    decreases |Beyond(before, table, last)|
  {
    hide Lossless, DecodeCursor, EncodeCursor, Payload, Paginate, SortBy, Orders, Beyond, PaginateText;
    var sorted := SortBy(before, Beyond(before, table, last));
    PageByText(t, before, table, size, cursor, last, limit);
    PageIs(before, table, last, limit);
    var page := PaginateText(t, before, table, size, cursor, limit).value;
    if |sorted| > limit {
      assert sorted == sorted[..limit] + sorted[limit..];
      if |Payload(t, sorted[limit - 1])| <= 384 {
        FollowIsComplete(t, before, table, size, page.next, Some(sorted[limit - 1]), limit);
      }
    }
  }

  /** From no cursor: the whole table. */
  lemma WholeTable(t: Texts, before: (seq<CursorValue>, seq<CursorValue>) -> bool, table: set<seq<CursorValue>>,
                   size: nat, limit: nat)
    requires Lossless(t) && Orders(before) && 1 <= limit <= 200 && forall k :: k in table ==> |k| == size
    requires forall k :: k in table ==> |Payload(t, k)| <= 384
    ensures var rows := Follow(t, before, table, size, None, None, limit);
            (forall k :: k in rows <==> k in table) && forall i, j :: 0 <= i < j < |rows| ==> before(rows[i], rows[j])
  {
    hide Lossless, DecodeCursor, Payload, Paginate, SortBy, Orders;
    FollowIsComplete(t, before, table, size, None, None, limit);
    assert Beyond(before, table, None) == table;
    AllFit(t, SortBy(before, table), limit);
  }

  lemma {:induction false} AllFit(t: Texts, rows: seq<seq<CursorValue>>, limit: nat)
    requires 1 <= limit && forall k :: k in rows ==> |Payload(t, k)| <= 384
    ensures PageEndsFit(t, rows, limit)
    decreases |rows|
  {
    hide Payload;
    if |rows| > limit {
      assert rows[limit - 1] in rows;
      AllFit(t, rows[limit..], limit);
    }
  }
}
