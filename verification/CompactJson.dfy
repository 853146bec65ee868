/** JSON in ASCII without spaces, and a printed form for every sort value, that meet what cursors ask of their texts. */
module CompactJson {
  import opened Common
  import opened Cursor

  // ---- numbers ----

  function HexDigit(n: int): (c: char)
    requires 0 <= n < 16
    ensures '0' <= c <= '9' || 'a' <= c <= 'f'
    ensures HexValue(c) == n
  {
    if n < 10 then '0' + n as char else 'a' + (n - 10) as char
  }

  function HexValue(c: char): int { if c <= '9' then c as int - 48 else c as int - 87 }

  function Power16(k: nat): nat { if k == 0 then 1 else 16 * Power16(k - 1) }

  predicate IsHex(s: string) { forall i :: 0 <= i < |s| ==> '0' <= s[i] <= '9' || 'a' <= s[i] <= 'f' }

  function HexText(n: nat, k: nat): (s: string)
    ensures |s| == k && IsHex(s)
  {
    if k == 0 then "" else HexText(n / 16, k - 1) + [HexDigit(n % 16)]
  }

  lemma {:induction false} HexReadsBack(n: nat, m: nat, k: nat)
    requires n < Power16(k) && m < Power16(k) && HexText(n, k) == HexText(m, k)
    ensures n == m
  {
    if k > 0 {
      var s, t := HexText(n, k), HexText(m, k);
      assert HexDigit(n % 16) == s[k - 1] && HexDigit(m % 16) == t[k - 1];
      assert HexText(n / 16, k - 1) == s[..k - 1] && HexText(m / 16, k - 1) == t[..k - 1];
      HexReadsBack(n / 16, m / 16, k - 1);
    }
  }

  // ---- characters ----

  /** `\uXXXX` */
  function Unit(n: nat): string { "\\u" + HexText(n, 4) }

  lemma UnitReadsBack(n: nat, m: nat, x: string, y: string)
    requires n < 0x10000 && m < 0x10000 && Unit(n) + x == Unit(m) + y
    ensures n == m && x == y
  {
    hide HexText;
    var a, b := Unit(n) + x, Unit(m) + y;
    assert a[2..6] == HexText(n, 4) && b[2..6] == HexText(m, 4);
    assert a[6..] == x && b[6..] == y;
    assert Power16(4) == 0x10000;
    HexReadsBack(n, m, 4);
  }

  /** The letter of a short escape. */
  function Letter(c: char): Option<char> {
    match c as int
    case 34 => Some('"')
    case 92 => Some('\\')
    case 8 => Some('b')
    case 9 => Some('t')
    case 10 => Some('n')
    case 12 => Some('f')
    case 13 => Some('r')
    case _ => None
  }

  predicate IsPlain(c: char) { 32 <= c as int <= 126 && Letter(c).None? }

  /** The first of the one or two units a character is written with. */
  function FirstUnit(c: char): (n: nat)
    ensures n < 0x10000
  {
    if c as int <= 0xFFFF then c as int else 0xD800 + (c as int - 0x10000) / 1024
  }

  function SecondUnit(c: char): (n: nat)
    requires c as int > 0xFFFF
    ensures n < 0x10000
  {
    0xDC00 + (c as int - 0x10000) % 1024
  }

  function Units(c: char): string { Unit(FirstUnit(c)) + if c as int <= 0xFFFF then "" else Unit(SecondUnit(c)) }

  function CharText(c: char): string {
    if IsPlain(c) then [c] else if Letter(c).Some? then ['\\', Letter(c).value] else Units(c)
  }

  lemma CharTextLength(c: char)
    ensures |CharText(c)| == CharLength(c) > 0 && CharText(c)[0] != '"' && IsAscii(CharText(c))
  {
    hide HexText;
  }

  lemma UnitsReadBack(c: char, d: char, x: string, y: string)
    requires Units(c) + x == Units(d) + y
    ensures c == d && x == y
  {
    hide Unit;
    var x', y' := Units(c)[|Unit(FirstUnit(c))|..] + x, Units(d)[|Unit(FirstUnit(d))|..] + y;
    assert Unit(FirstUnit(c)) + x' == Units(c) + x && Unit(FirstUnit(d)) + y' == Units(d) + y;
    UnitReadsBack(FirstUnit(c), FirstUnit(d), x', y');
    SameFirst(c, d);
    if c as int > 0xFFFF {
      assert x' == Unit(SecondUnit(c)) + x && y' == Unit(SecondUnit(d)) + y;
      UnitReadsBack(SecondUnit(c), SecondUnit(d), x, y);
    } else {
      assert x' == x && y' == y;
    }
  }

  /** No character is in the range of the first units of a pair. */
  lemma SameFirst(c: char, d: char)
    requires FirstUnit(c) == FirstUnit(d)
    ensures c as int <= 0xFFFF <==> d as int <= 0xFFFF
    ensures c as int <= 0xFFFF ==> c == d
    ensures c as int > 0xFFFF && SecondUnit(c) == SecondUnit(d) ==> c == d
  {}

  lemma CharReadsBack(c: char, d: char, x: string, y: string)
    requires CharText(c) + x == CharText(d) + y
    ensures c == d && x == y
  {
    hide Units;
    var a, b := CharText(c) + x, CharText(d) + y;
    UnitsStart(c);
    UnitsStart(d);
    assert a[0] == CharText(c)[0] && b[0] == CharText(d)[0];
    assert IsPlain(c) <==> IsPlain(d);
    if IsPlain(c) {
      assert a[1..] == x && b[1..] == y;
    } else {
      assert a[1] == CharText(c)[1] && b[1] == CharText(d)[1];
      assert Letter(c) == Letter(d);
      if Letter(c).Some? {
        assert a[2..] == x && b[2..] == y;
      } else {
        UnitsReadBack(c, d, x, y);
      }
    }
  }

  lemma UnitsStart(c: char)
    ensures |Units(c)| >= 2 && Units(c)[0] == '\\' && Units(c)[1] == 'u'
  {
    hide HexText;
  }

  // ---- strings ----

  /** A string from some character on, with the closing quote. */
  function Rest(s: string): string { if s == "" then "\"" else CharText(s[0]) + Rest(s[1..]) }

  function Quoted(s: string): string { "\"" + Rest(s) }

  lemma {:induction false} RestReadsBack(s: string, s': string, x: string, y: string)
    requires Rest(s) + x == Rest(s') + y
    ensures s == s' && x == y
    decreases |s|
  {
    hide CharText;
    var a, b := Rest(s) + x, Rest(s') + y;
    if s != "" { CharTextLength(s[0]); }
    if s' != "" { CharTextLength(s'[0]); }
    assert a[0] == Rest(s)[0] && b[0] == Rest(s')[0];
    if s == "" {
      assert a[1..] == x && b[1..] == y;
    } else {
      assert a == CharText(s[0]) + (Rest(s[1..]) + x) && b == CharText(s'[0]) + (Rest(s'[1..]) + y);
      CharReadsBack(s[0], s'[0], Rest(s[1..]) + x, Rest(s'[1..]) + y);
      RestReadsBack(s[1..], s'[1..], x, y);
    }
  }

  lemma QuotedReadsBack(s: string, s': string, x: string, y: string)
    requires Quoted(s) + x == Quoted(s') + y
    ensures s == s' && x == y
  {
    hide Rest;
    assert (Quoted(s) + x)[1..] == Rest(s) + x && (Quoted(s') + y)[1..] == Rest(s') + y;
    RestReadsBack(s, s', x, y);
  }

  lemma {:induction false} RestLength(s: string)
    ensures |Rest(s)| == EscapedLength(s) + 1 && IsAscii(Rest(s))
  {
    hide CharText, CharLength;
    if s != "" {
      CharTextLength(s[0]);
      RestLength(s[1..]);
    }
  }

  // ---- numbers in decimal ----

  predicate IsNumeral(s: string) { forall i :: 0 <= i < |s| ==> '0' <= s[i] <= '9' || s[i] == '-' }

  function NatText(n: nat): (s: string)
    ensures s != "" && s[0] != '-' && IsNumeral(s)
  {
    if n < 10 then ['0' + n as char] else NatText(n / 10) + ['0' + (n % 10) as char]
  }

  lemma {:induction false} NatReadsBack(n: nat, m: nat)
    requires NatText(n) == NatText(m)
    ensures n == m
  {
    var s, t := NatText(n), NatText(m);
    assert s[|s| - 1] == '0' + (n % 10) as char && t[|t| - 1] == '0' + (m % 10) as char;
    if n >= 10 {
      assert s[..|s| - 1] == NatText(n / 10);
      assert m >= 10 ==> t[..|t| - 1] == NatText(m / 10);
      NatReadsBack(n / 10, m / 10);
    }
  }

  function IntText(n: int): (s: string)
    ensures s != "" && IsNumeral(s)
  {
    if n < 0 then "-" + NatText(-n) else NatText(n)
  }

  lemma IntReadsBack(n: int, m: int)
    requires IntText(n) == IntText(m)
    ensures n == m
  {
    hide NatText;
    assert n < 0 <==> IntText(n)[0] == '-';
    assert m < 0 <==> IntText(m)[0] == '-';
    if n < 0 { assert IntText(n)[1..] == NatText(-n) && IntText(m)[1..] == NatText(-m); }
    NatReadsBack(if n < 0 then -n else n, if m < 0 then -m else m);
  }

  /** A text up to a character that is not in it. */
  lemma UpTo(c: char, s: string, s': string, x: string, y: string)
    requires c !in s && c !in s' && s + [c] + x == s' + [c] + y
    ensures s == s' && x == y
  {
    var a, b := s + [c] + x, s' + [c] + y;
    assert a[|s|] == c && b[|s'|] == c;
    assert forall i :: 0 <= i < |s| ==> a[i] == s[i] && s[i] in s;
    assert forall i :: 0 <= i < |s'| ==> b[i] == s'[i] && s'[i] in s';
    assert a[..|s|] == s && b[..|s'|] == s';
    assert a[|s| + 1..] == x && b[|s'| + 1..] == y;
  }

  // ---- values ----

  /** A UUID in its five groups of hexadecimal digits. */
  function Dashed(s: string): (r: string)
    requires |s| == 32
    ensures |r| == 36
  {
    s[..8] + "-" + s[8..12] + "-" + s[12..16] + "-" + s[16..20] + "-" + s[20..]
  }

  lemma DashedReadsBack(s: string, s': string)
    requires |s| == |s'| == 32 && Dashed(s) == Dashed(s')
    ensures s == s'
  {
    forall i | 0 <= i < 32 ensures s[i] == s'[i] {
      var j := if i < 8 then i else if i < 12 then i + 1 else if i < 16 then i + 2 else if i < 20 then i + 3 else i + 4;
      assert Dashed(s)[j] == s[i] && Dashed(s')[j] == s'[i];
    }
  }

  /** Dates by their numbers, a decimal by its digits and its exponent. */
  function Printed(v: CursorValue): string {
    match v
    case VDateTime(at) => IntText(at)
    case VDate(day) => IntText(day)
    case VUuid(uuid) => Dashed(HexText(uuid, 32))
    case VDecimal(digits, exponent) => IntText(digits) + "E" + IntText(exponent)
    case _ => ""
  }

  lemma PrintedReadsBack(v: CursorValue, w: CursorValue)
    requires ExactClass(v) == ExactClass(w) && Printed(v) == Printed(w)
    requires v.VDateTime? || v.VDate? || v.VUuid? || v.VDecimal?
    ensures v == w
  {
    hide IntText, HexText, Dashed, Power16;
    match v {
      case VDateTime(at) => IntReadsBack(at, w.at);
      case VDate(day) => IntReadsBack(day, w.day);
      case VUuid(uuid) =>
        DashedReadsBack(HexText(uuid, 32), HexText(w.uuid, 32));
        Power32();
        HexReadsBack(uuid, w.uuid, 32);
      case VDecimal(digits, exponent) =>
        UpTo('E', IntText(digits), IntText(w.digits), IntText(exponent), IntText(w.exponent));
        IntReadsBack(digits, w.digits);
        IntReadsBack(exponent, w.exponent);
    }
  }

  lemma {:induction false} PowerAdd(j: nat, k: nat)
    ensures Power16(j + k) == Power16(j) * Power16(k)
  {
    if j > 0 {
      PowerAdd(j - 1, k);
      assert Power16(j + k) == 16 * (Power16(j - 1) * Power16(k));
    }
  }

  lemma Power32()
    ensures Power16(32) == 0x1_0000_0000_0000_0000_0000_0000_0000_0000
  {
    assert Power16(4) == 0x10000;
    hide Power16;
    PowerAdd(4, 4);
    PowerAdd(8, 8);
    PowerAdd(16, 16);
  }

  /** A scalar. */
  function Scalar(j: Json): string {
    match j
    case JBool(flag) => if flag then "true" else "false"
    case JInt(num) => IntText(num)
    case JFloat(bits) => IntText(bits)
    case JStr(text) => Quoted(text)
    case _ => "null"
  }

  const PRINTED := Texts(j => "", s => None, v => Printed(v), (tag, raw) => Refused)

  function RawOf(v: CursorValue): Json { EncodeValue(PRINTED, v).items[1] }

  function NameOf(v: CursorValue): string { TagOf(PRINTED, v) }

  /** `["tag",raw]` */
  function Pair(v: CursorValue): string { "[" + Quoted(NameOf(v)) + "," + Scalar(RawOf(v)) + "]" }

  lemma ValueReadsBack(v: CursorValue, w: CursorValue)
    requires NameOf(v) == NameOf(w) && RawOf(v) == RawOf(w)
    ensures v == w
  {
    hide Printed;
    TagIsExact(PRINTED, v);
    TagIsExact(PRINTED, w);
    if v.VDateTime? || v.VDate? || v.VUuid? || v.VDecimal? { PrintedReadsBack(v, w); }
  }

  lemma ScalarReadsBack(v: CursorValue, w: CursorValue, x: string, y: string)
    requires ExactClass(v) == ExactClass(w) && Scalar(RawOf(v)) + "]" + x == Scalar(RawOf(w)) + "]" + y
    ensures RawOf(v) == RawOf(w) && x == y
  {
    hide IntText, Quoted, Printed;
    var j, k := RawOf(v), RawOf(w);
    if j.JStr? {
      assert Scalar(j) + "]" + x == Scalar(j) + ("]" + x) && Scalar(k) + "]" + y == Scalar(k) + ("]" + y);
      QuotedReadsBack(j.text, k.text, "]" + x, "]" + y);
      assert ("]" + x)[1..] == x && ("]" + y)[1..] == y;
    } else {
      UpTo(']', Scalar(j), Scalar(k), x, y);
      match v {
        case VBool(flag) =>
        case VInt(num) => IntReadsBack(num, w.num);
        case VFloat(bits) => IntReadsBack(bits, w.bits);
        case _ =>
      }
    }
  }

  lemma PairReadsBack(v: CursorValue, w: CursorValue, x: string, y: string)
    requires Pair(v) + x == Pair(w) + y
    ensures v == w && x == y
  {
    hide Quoted, Scalar, RawOf, NameOf, TagOf, EncodeValue;
    var a, b := "," + Scalar(RawOf(v)) + "]" + x, "," + Scalar(RawOf(w)) + "]" + y;
    assert (Pair(v) + x)[1..] == Quoted(NameOf(v)) + a && (Pair(w) + y)[1..] == Quoted(NameOf(w)) + b;
    QuotedReadsBack(NameOf(v), NameOf(w), a, b);
    assert a[1..] == Scalar(RawOf(v)) + "]" + x && b[1..] == Scalar(RawOf(w)) + "]" + y;
    SameName(v, w);
    ScalarReadsBack(v, w, x, y);
    ValueReadsBack(v, w);
  }

  lemma SameName(v: CursorValue, w: CursorValue)
    requires NameOf(v) == NameOf(w)
    ensures ExactClass(v) == ExactClass(w)
  {
    TagIsExact(PRINTED, v);
    TagIsExact(PRINTED, w);
  }

  // ---- lists ----

  /** A list from some item on, with the closing bracket. */
  function Tail(values: seq<CursorValue>): string {
    if values == [] then "]" else "," + Pair(values[0]) + Tail(values[1..])
  }

  /** The list; without the comma that each item of a tail begins with. */
  function ListText(values: seq<CursorValue>): string {
    "[" + if values == [] then "]" else Tail(values)[1..]
  }

  lemma {:induction false} TailReadsBack(vs: seq<CursorValue>, ws: seq<CursorValue>)
    requires Tail(vs) == Tail(ws)
    ensures vs == ws
  {
    hide Pair;
    var a, b := Tail(vs), Tail(ws);
    assert vs == [] <==> a[0] == ']';
    assert ws == [] <==> b[0] == ']';
    if vs != [] {
      assert a[1..] == Pair(vs[0]) + Tail(vs[1..]) && b[1..] == Pair(ws[0]) + Tail(ws[1..]);
      PairReadsBack(vs[0], ws[0], Tail(vs[1..]), Tail(ws[1..]));
      TailReadsBack(vs[1..], ws[1..]);
    }
  }

  lemma TailStarts(values: seq<CursorValue>)
    ensures values == [] ==> ListText(values) == "[]"
    ensures values != [] ==> |Tail(values)| >= 2 && Tail(values)[0] == ',' && ListText(values)[1] == '['
  {
    hide Quoted, Scalar, NameOf, RawOf;
    if values != [] {
      assert Pair(values[0])[0] == '[';
      assert Tail(values)[1] == '[';
    }
  }

  lemma ListReadsBack(vs: seq<CursorValue>, ws: seq<CursorValue>)
    requires ListText(vs) == ListText(ws)
    ensures vs == ws
  {
    TailStarts(vs);
    TailStarts(ws);
    hide Tail, Pair;
    if vs != [] {
      assert ListText(vs)[1..] == Tail(vs)[1..] && ListText(ws)[1..] == Tail(ws)[1..];
      assert Tail(vs) == "," + Tail(vs)[1..] && Tail(ws) == "," + Tail(ws)[1..];
      TailReadsBack(vs, ws);
    }
  }

  // ---- a writer, and what reads it ----

  /** `json.dumps` of lists and scalars. */
  function Write(j: Json): string
    decreases j, 1, 0
  {
    if j.JList? then "[" + (if j.items == [] then "]" else WriteFrom(j, 0)[1..]) else Scalar(j)
  }

  function WriteFrom(j: Json, i: nat): (s: string)
    requires j.JList? && i <= |j.items|
    ensures s != ""
    decreases j, 0, |j.items| - i
  {
    if i == |j.items| then "]" else "," + Write(j.items[i]) + WriteFrom(j, i + 1)
  }

  function Encoded(values: seq<CursorValue>): Json { JList(EncodeAll(PRINTED, values)) }

  lemma TwoWritten(a: Json, b: Json)
    requires !a.JList? && !b.JList?
    ensures Write(JList([a, b])) == "[" + Scalar(a) + "," + Scalar(b) + "]"
  {
    hide Scalar;
    var j := JList([a, b]);
    assert WriteFrom(j, 1) == "," + Scalar(b) + "]";
    assert WriteFrom(j, 0) == "," + Scalar(a) + WriteFrom(j, 1);
  }

  lemma PairIsWritten(v: CursorValue)
    ensures Write(EncodeValue(PRINTED, v)) == Pair(v)
  {
    hide Quoted, IntText, Printed, Write;
    TagIsExact(PRINTED, v);
    var j := EncodeValue(PRINTED, v);
    assert j == JList([j.items[0], j.items[1]]);
    TwoWritten(j.items[0], j.items[1]);
  }

  lemma {:induction false} TailIsWritten(values: seq<CursorValue>, i: nat)
    requires i <= |values|
    ensures WriteFrom(Encoded(values), i) == Tail(values[i..])
    decreases |values| - i
  {
    hide Pair, Write, EncodeValue;
    if i < |values| {
      TailIsWritten(values, i + 1);
      PairIsWritten(values[i]);
      assert values[i..][0] == values[i] && values[i..][1..] == values[i + 1..];
    }
  }

  lemma ListIsWritten(values: seq<CursorValue>)
    ensures Write(Encoded(values)) == ListText(values)
  {
    hide Tail, WriteFrom, EncodeValue;
    if values != [] {
      TailIsWritten(values, 0);
      assert values[0..] == values;
    }
  }

  /** The value that is written this way, if there is one. */
  ghost function Load(s: string): Option<Json> {
    if exists vs :: Write(Encoded(vs)) == s then
      var vs :| Write(Encoded(vs)) == s;
      Some(Encoded(vs))
    else None
  }

  ghost function ReadBack(tag: string, raw: Json): Reading<CursorValue> {
    if exists v :: NameOf(v) == tag && RawOf(v) == raw then
      var v :| NameOf(v) == tag && RawOf(v) == raw;
      Got(v)
    else Refused
  }

  ghost function CompactTexts(): Texts {
    Texts(j => Write(j), s => Load(s), v => Printed(v), (tag, raw) => ReadBack(tag, raw))
  }

  lemma SameEncoding(v: CursorValue)
    ensures EncodeValue(CompactTexts(), v) == EncodeValue(PRINTED, v) && TagOf(CompactTexts(), v) == NameOf(v)
  {
    hide Printed, Load, ReadBack, Write;
  }

  lemma SamePayload(values: seq<CursorValue>)
    ensures EncodeAll(CompactTexts(), values) == EncodeAll(PRINTED, values)
    ensures Payload(CompactTexts(), values) == ListText(values)
  {
    hide EncodeValue, CompactTexts, ListText, Write;
    forall i | 0 <= i < |values| ensures EncodeValue(CompactTexts(), values[i]) == EncodeValue(PRINTED, values[i]) {
      SameEncoding(values[i]);
    }
    ListIsWritten(values);
    Dumps(Encoded(values));
  }

  lemma Dumps(j: Json)
    ensures CompactTexts().dumps(j) == Write(j)
  {}

  lemma ListLoads(values: seq<CursorValue>)
    ensures Load(ListText(values)) == Some(Encoded(values))
  {
    hide ListText, Write, EncodeAll;
    ListIsWritten(values);
    var vs :| Write(Encoded(vs)) == ListText(values) && Load(ListText(values)) == Some(Encoded(vs));
    ListIsWritten(vs);
    ListReadsBack(vs, values);
  }

  lemma ValueReads(v: CursorValue)
    ensures ReadBack(NameOf(v), RawOf(v)) == Got(v)
  {
    hide NameOf, RawOf;
    forall w | NameOf(w) == NameOf(v) && RawOf(w) == RawOf(v) ensures w == v { ValueReadsBack(v, w); }
  }

  // ---- both conditions hold of it ----

  lemma {:induction false} TailIsAscii(values: seq<CursorValue>)
    ensures IsAscii(Tail(values))
  {
    hide Pair;
    if values != [] {
      PairIsAscii(values[0]);
      TailIsAscii(values[1..]);
    }
  }

  lemma ScalarIsAscii(j: Json)
    ensures IsAscii(Scalar(j))
  {
    if j.JStr? { RestLength(j.text); }
  }

  lemma PairIsAscii(v: CursorValue)
    ensures IsAscii(Pair(v))
  {
    hide Rest, Scalar, NameOf, RawOf;
    RestLength(NameOf(v));
    ScalarIsAscii(RawOf(v));
  }

  /** The JSON of sort values reads back, is ASCII, and each value reads back under its tag. */
  lemma CompactIsLossless()
    ensures Lossless(CompactTexts())
  {
    hide CompactTexts, EncodeValue, ListText, TagOf, NameOf, RawOf;
    var t := CompactTexts();
    forall values: seq<CursorValue> ensures JsonReadsBack(t, values) {
      SamePayload(values);
      ListLoads(values);
      ListIsAscii(values);
      Loads(ListText(values));
    }
    forall v: CursorValue ensures ReadsUnderTag(t, v) { ValueIsRead(v); }
  }

  lemma ValueIsRead(v: CursorValue)
    ensures ReadsUnderTag(CompactTexts(), v)
  {
    hide CompactTexts;
    SameEncoding(v);
    ValueReads(v);
    Reads(NameOf(v), RawOf(v));
  }

  lemma ListIsAscii(values: seq<CursorValue>)
    ensures IsAscii(ListText(values))
  {
    hide Tail;
    TailStarts(values);
    TailIsAscii(values);
  }

  lemma Loads(s: string)
    ensures CompactTexts().loads(s) == Load(s)
  {
    hide Load;
  }

  lemma Reads(tag: string, raw: Json)
    ensures CompactTexts().read(tag, raw) == ReadBack(tag, raw)
  {
    hide ReadBack;
  }

  lemma PlainLength(s: string)
    requires forall i :: 0 <= i < |s| ==> IsPlain(s[i])
    ensures EscapedLength(s) == |s|
  {
    hide CharLength;
    if s != "" {
      CharTextLength(s[0]);
      PlainLength(s[1..]);
    }
  }

  lemma UuidLength(u: Uuid)
    ensures EscapedLength(CompactTexts().printed(VUuid(u))) == 36
  {
    hide HexText, Load, ReadBack, Write;
    var s := HexText(u, 32);
    assert forall i :: 0 <= i < 36 ==> IsPlain(Dashed(s)[i]);
    PlainLength(Dashed(s));
  }

  lemma PairLength(v: CursorValue)
    requires IsText(CompactTexts(), v)
    ensures |Pair(v)| == ItemLength(CompactTexts(), v)
  {
    hide CompactTexts, Rest, Printed;
    SameEncoding(v);
    RestLength(NameOf(v));
    RestLength(RawOf(v).text);
    NameLength(v);
  }

  lemma NameLength(v: CursorValue)
    ensures EscapedLength(NameOf(v)) == |NameOf(v)|
  {
    hide Printed;
    PlainLength(NameOf(v));
  }

  lemma {:induction false} TailLength(values: seq<CursorValue>)
    requires forall i :: 0 <= i < |values| ==> IsText(CompactTexts(), values[i])
    ensures values != [] ==> |Tail(values)| == 2 + ItemsLength(CompactTexts(), values)
  {
    hide CompactTexts, Pair, ItemLength, IsText;
    if values != [] {
      PairLength(values[0]);
      TailLength(values[1..]);
    }
  }

  /** The lengths are those of compact JSON. */
  lemma CompactIsCompact()
    ensures Compact(CompactTexts())
  {
    hide CompactTexts, EncodeValue, Tail, Payload, IsText;
    var t := CompactTexts();
    forall values: seq<CursorValue> ensures IsCompact(t, values) {
      SamePayload(values);
      TailStarts(values);
      if forall i :: 0 <= i < |values| ==> IsText(t, values[i]) { TailLength(values); }
    }
    forall u: Uuid ensures EscapedLength(t.printed(VUuid(u))) == 36 { UuidLength(u); }
  }
}
