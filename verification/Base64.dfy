/** The text layer of cursors: base64 with the URL-safe alphabet and without padding (sections 5 and 3.2 of RFC 4648),
    read back by a decoder that, as Python's does, skips foreign characters and stops at the padding. */
module Base64 {
  import opened Common

  newtype Byte = x: int | 0 <= x < 256

  newtype Sextet = x: int | 0 <= x < 64

  function Digit(n: Sextet): char {
    if n < 26 then 'A' + n as char
    else if n < 52 then 'a' + (n - 26) as char
    else if n < 62 then '0' + (n - 52) as char
    else if n == 62 then '-'
    else '_'
  }

  /** The value of a digit; the decoder also reads the standard alphabet's two. */
  function DigitValue(c: char): Option<Sextet> {
    if 'A' <= c <= 'Z' then Some((c - 'A') as int as Sextet)
    else if 'a' <= c <= 'z' then Some((c - 'a') as int as Sextet + 26)
    else if '0' <= c <= '9' then Some((c - '0') as int as Sextet + 52)
    else if c == '-' || c == '+' then Some(62)
    else if c == '_' || c == '/' then Some(63)
    else None
  }

  lemma DigitReadsBack(n: Sextet)
    ensures DigitValue(Digit(n)) == Some(n) && Digit(n) != '='
  {}

  // ---- encoding ----

  function First(a: Byte): Sextet { (a as int / 4) as Sextet }

  function Second(a: Byte, b: Byte): Sextet { (a as int % 4 * 16 + b as int / 16) as Sextet }

  function Third(b: Byte, c: Byte): Sextet { (b as int % 16 * 4 + c as int / 64) as Sextet }

  function Fourth(c: Byte): Sextet { (c as int % 64) as Sextet }

  /** `urlsafe_b64encode` */
  function Encode(bytes: seq<Byte>): string {
    if bytes == [] then ""
    else if |bytes| == 1 then [Digit(First(bytes[0])), Digit(Second(bytes[0], 0)), '=', '=']
    else if |bytes| == 2 then
      [Digit(First(bytes[0])), Digit(Second(bytes[0], bytes[1])), Digit(Third(bytes[1], 0)), '=']
    else
      [Digit(First(bytes[0])), Digit(Second(bytes[0], bytes[1])), Digit(Third(bytes[1], bytes[2])),
       Digit(Fourth(bytes[2]))]
      + Encode(bytes[3..])
  }

  /** `rstrip("=")` */
  function Unpadded(s: string): string { if s != "" && s[|s| - 1] == '=' then Unpadded(s[..|s| - 1]) else s }

  /** `"=" * (-len % 4)` put back. */
  function Padded(s: string): string {
    s + match |s| % 4 case 0 => "" case 1 => "===" case 2 => "==" case _ => "="
  }

  // ---- decoding ----

  /** The decoder between two characters: its place in the group of four, the bits left over, and the padding seen. */
  datatype Reader = Reader(pos: nat, bits: nat, pads: nat, out: seq<Byte>, ended: bool)

  predicate ReaderOk(r: Reader) {
    r.pos < 4 && r.bits < (if r.pos == 1 then 64 else if r.pos == 2 then 16 else if r.pos == 3 then 4 else 1)
  }

  const START := Reader(0, 0, 0, [], false)

  function Read(r: Reader, c: char): (r': Reader)
    requires ReaderOk(r)
    ensures ReaderOk(r')
  {
    if r.ended then r
    else if c == '=' then
      if r.pos < 2 then r
      else if r.pos + r.pads + 1 >= 4 then r.(pads := r.pads + 1, ended := true)
      else r.(pads := r.pads + 1)
    else
      var d := DigitValue(c);
      if d.None? then r else
        var v := d.value as int;
        if r.pos == 0 then Reader(1, v, 0, r.out, false)
        else if r.pos == 1 then Reader(2, v % 16, 0, r.out + [(r.bits * 4 + v / 16) as Byte], false)
        else if r.pos == 2 then Reader(3, v % 4, 0, r.out + [(r.bits * 16 + v / 4) as Byte], false)
        else Reader(0, 0, 0, r.out + [(r.bits * 64 + v) as Byte], false)
  }

  function ReadAll(r: Reader, s: string): (r': Reader)
    requires ReaderOk(r)
    ensures ReaderOk(r')
    decreases |s|
  {
    if s == "" then r else ReadAll(Read(r, s[0]), s[1..])
  }

  /** `urlsafe_b64decode`: none for an incomplete group. */
  function Decode(s: string): Option<seq<Byte>> {
    var r := ReadAll(START, s);
    if r.ended || r.pos == 0 then Some(r.out) else None
  }

  // ---- the round trip ----

  lemma {:induction false} ReadAllConcat(r: Reader, a: string, b: string)
    requires ReaderOk(r)
    ensures ReadAll(r, a + b) == ReadAll(ReadAll(r, a), b)
    decreases |a|
  {
    if a == "" {
      assert a + b == b;
    } else {
      assert (a + b)[1..] == a[1..] + b;
      ReadAllConcat(Read(r, a[0]), a[1..], b);
    }
  }

  lemma ReadTwo(out: seq<Byte>, a: Byte, b: Byte)
    ensures Read(Read(Reader(0, 0, 0, out, false), Digit(First(a))), Digit(Second(a, b))) ==
            Reader(2, b as int / 16, 0, out + [a], false)
  {
    DigitReadsBack(First(a));
    DigitReadsBack(Second(a, b));
    hide Digit, DigitValue;
    FirstByte(a, b);
  }

  lemma ReadThird(out: seq<Byte>, b: Byte, c: Byte)
    ensures Read(Reader(2, b as int / 16, 0, out, false), Digit(Third(b, c))) ==
            Reader(3, c as int / 64, 0, out + [b], false)
  {
    DigitReadsBack(Third(b, c));
    hide Digit, DigitValue;
    SecondByte(b, c);
  }

  lemma ReadFourth(out: seq<Byte>, c: Byte)
    ensures Read(Reader(3, c as int / 64, 0, out, false), Digit(Fourth(c))) == Reader(0, 0, 0, out + [c], false)
  {
    DigitReadsBack(Fourth(c));
    hide Digit, DigitValue;
  }

  /** Four digits of a full group give its three bytes. */
  lemma ReadGroup(out: seq<Byte>, a: Byte, b: Byte, c: Byte)
    ensures ReadAll(Reader(0, 0, 0, out, false),
                    [Digit(First(a)), Digit(Second(a, b)), Digit(Third(b, c)), Digit(Fourth(c))])
            == Reader(0, 0, 0, out + [a, b, c], false)
  {
    hide Digit, Read, ReadAll, First, Second, Third, Fourth;
    ReadTwo(out, a, b);
    ReadThird(out + [a], b, c);
    ReadFourth(out + [a] + [b], c);
    FourSteps(Reader(0, 0, 0, out, false), Digit(First(a)), Digit(Second(a, b)), Digit(Third(b, c)), Digit(Fourth(c)));
    assert out + [a] + [b] + [c] == out + [a, b, c];
  }

  lemma FourSteps(r: Reader, a: char, b: char, c: char, d: char)
    requires ReaderOk(r)
    ensures ReadAll(r, [a, b, c, d]) == Read(Read(Read(Read(r, a), b), c), d)
  {
    hide Read, ReadAll, ReaderOk;
    ReadOne(r, a, [b, c, d]);
    ReadOne(Read(r, a), b, [c, d]);
    ReadOne(Read(Read(r, a), b), c, [d]);
    ReadOne(Read(Read(Read(r, a), b), c), d, []);
    ReadNone(Read(Read(Read(Read(r, a), b), c), d));
    assert [a] + [b, c, d] == [a, b, c, d] && [b] + [c, d] == [b, c, d] && [c] + [d] == [c, d] && [d] + [] == [d];
  }

  lemma ReadOne(r: Reader, c: char, rest: string)
    requires ReaderOk(r)
    ensures ReadAll(r, [c] + rest) == ReadAll(Read(r, c), rest)
  {
    assert ([c] + rest)[1..] == rest;
  }

  lemma ReadNone(r: Reader)
    requires ReaderOk(r)
    ensures ReadAll(r, []) == r
  {}

  lemma FirstByte(a: Byte, b: Byte)
    ensures a as int / 4 * 4 + Second(a, b) as int / 16 == a as int && Second(a, b) as int % 16 == b as int / 16
  {}

  lemma SecondByte(b: Byte, c: Byte)
    ensures b as int / 16 * 16 + Third(b, c) as int / 4 == b as int && Third(b, c) as int % 4 == c as int / 64
  {}

  lemma ReadTail(out: seq<Byte>, tail: seq<Byte>)
    requires 0 < |tail| < 3
    ensures var r := ReadAll(Reader(0, 0, 0, out, false), Encode(tail)); r.ended && r.out == out + tail
  {
    hide Digit, ReadAll, First, Second, Third, Fourth;
    var start, a := Reader(0, 0, 0, out, false), tail[0];
    if |tail| == 1 {
      ReadTwo(out, a, 0);
      FourSteps(start, Digit(First(a)), Digit(Second(a, 0)), '=', '=');
      TwoPads(out + [a]);
      hide Read;
      assert tail == [a];
    } else {
      var b := tail[1];
      ReadTwo(out, a, b);
      ReadThird(out + [a], b, 0);
      FourSteps(start, Digit(First(a)), Digit(Second(a, b)), Digit(Third(b, 0)), '=');
      OnePad(out + [a] + [b]);
      hide Read;
      assert out + [a] + [b] == out + tail;
    }
  }

  lemma TwoPads(out: seq<Byte>)
    ensures var r := Read(Read(Reader(2, 0, 0, out, false), '='), '='); r.ended && r.out == out
  {}

  lemma OnePad(out: seq<Byte>)
    ensures var r := Read(Reader(3, 0, 0, out, false), '='); r.ended && r.out == out
  {}

  lemma {:induction false} ReadEncoded(out: seq<Byte>, bytes: seq<Byte>)
    ensures var r := ReadAll(Reader(0, 0, 0, out, false), Encode(bytes));
            (r.ended || r.pos == 0) && r.out == out + bytes
    decreases |bytes|
  {
    hide Read, Digit, First, Second, Third, Fourth, ReadAll, ReaderOk;
    if bytes == [] {
      ReadNone(Reader(0, 0, 0, out, false));
    } else if |bytes| < 3 {
      ReadTail(out, bytes);
    } else {
      var a, b, c := bytes[0], bytes[1], bytes[2];
      ReadGroup(out, a, b, c);
      ReadAllConcat(Reader(0, 0, 0, out, false),
                    [Digit(First(a)), Digit(Second(a, b)), Digit(Third(b, c)), Digit(Fourth(c))], Encode(bytes[3..]));
      ReadEncoded(out + [a, b, c], bytes[3..]);
      assert out + [a, b, c] + bytes[3..] == out + bytes;
    }
  }

  lemma UnpaddedEnd(s: string, t: string)
    requires t != "" && t[|t| - 1] != '='
    ensures Unpadded(s + t) == s + t && Unpadded(s + t + "=") == s + t && Unpadded(s + t + "==") == s + t
  {
    assert (s + t + "=")[..|s + t|] == s + t;
    assert (s + t + "==")[..|s + t| + 1] == s + t + "=";
  }

  /** Stripping the padding loses nothing: it can be put back, and the length follows from the bytes. */
  lemma {:induction false} PaddingComesBack(bytes: seq<Byte>, before: string)
    requires |before| % 4 == 0 && (before == "" || before[|before| - 1] != '=')
    ensures Padded(Unpadded(before + Encode(bytes))) == before + Encode(bytes)
    ensures |Unpadded(before + Encode(bytes))| == |before| + (4 * |bytes| + 2) / 3
    decreases |bytes|
  {
    hide Digit, DigitValue, First, Second, Third, Fourth;
    if bytes == [] {
      assert before + "" == before;
    } else if |bytes| < 3 {
      ShortEnd(bytes, before);
    } else {
      var group := [Digit(First(bytes[0])), Digit(Second(bytes[0], bytes[1])), Digit(Third(bytes[1], bytes[2])),
                    Digit(Fourth(bytes[2]))];
      DigitReadsBack(Fourth(bytes[2]));
      assert before + Encode(bytes) == (before + group) + Encode(bytes[3..]);
      PaddingComesBack(bytes[3..], before + group);
    }
  }

  /** The digits of the last one or two bytes. */
  function Tail(bytes: seq<Byte>): string
    requires 0 < |bytes| < 3
  {
    if |bytes| == 1 then [Digit(First(bytes[0])), Digit(Second(bytes[0], 0))]
    else [Digit(First(bytes[0])), Digit(Second(bytes[0], bytes[1])), Digit(Third(bytes[1], 0))]
  }

  lemma TailIs(bytes: seq<Byte>)
    requires 0 < |bytes| < 3
    ensures |Tail(bytes)| == |bytes| + 1 && Tail(bytes)[|bytes|] != '='
    ensures Encode(bytes) == Tail(bytes) + (if |bytes| == 1 then "==" else "=")
  {
    DigitReadsBack(Second(bytes[0], 0));
    if |bytes| == 2 { DigitReadsBack(Third(bytes[1], 0)); }
    hide Digit;
  }

  lemma ShortEnd(bytes: seq<Byte>, before: string)
    requires |before| % 4 == 0 && 0 < |bytes| < 3
    ensures Padded(Unpadded(before + Encode(bytes))) == before + Encode(bytes)
    ensures |Unpadded(before + Encode(bytes))| == |before| + (4 * |bytes| + 2) / 3
  {
    hide Unpadded, Encode, Tail;
    var t, pads := Tail(bytes), if |bytes| == 1 then "==" else "=";
    TailIs(bytes);
    UnpaddedEnd(before, t);
    assert before + (t + pads) == before + t + pads;
  }

  /** Bytes come back from their unpadded text, which has 4 characters for every 3 bytes, rounded up. */
  lemma RoundTrip(bytes: seq<Byte>)
    ensures Decode(Padded(Unpadded(Encode(bytes)))) == Some(bytes)
    ensures |Unpadded(Encode(bytes))| == (4 * |bytes| + 2) / 3
  {
    hide ReadAll, Padded, Unpadded;
    assert "" + Encode(bytes) == Encode(bytes);
    PaddingComesBack(bytes, "");
    ReadEncoded([], bytes);
    assert [] + bytes == bytes;
  }
}
