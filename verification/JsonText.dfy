/** JSON strings as `json.dumps` writes them, decimal integers, and readers for both.

    The reader follows section 7 of RFC 8259: an escaped high surrogate followed by an escaped low surrogate
    denotes one code point. */
module JsonText {
  import opened Options
  import opened Texts

  predicate IsHigh(c: int) {
    0xD800 <= c < 0xDC00
  }

  predicate IsLow(c: int) {
    0xDC00 <= c < 0xE000
  }

  function Astral(high: CodePoint, low: CodePoint): CodePoint
    requires IsHigh(high) && IsLow(low)
  {
    0x10000 + (high - 0xD800) * 0x400 + (low - 0xDC00)
  }

  function HexDigit(n: int): char
    requires 0 <= n < 16
  {
    if n < 10 then '0' + n as char else 'a' + (n - 10) as char
  }

  function HexValue(c: char): Option<int> {
    if '0' <= c <= '9' then Some(c as int - '0' as int)
    else if 'a' <= c <= 'f' then Some(c as int - 'a' as int + 10)
    else if 'A' <= c <= 'F' then Some(c as int - 'A' as int + 10)
    else None
  }

  function Hex4(n: int): (r: string)
    requires 0 <= n < 0x10000
    ensures |r| == 4
  {
    [HexDigit(n / 4096), HexDigit(n / 256 % 16), HexDigit(n / 16 % 16), HexDigit(n % 16)]
  }

  function ReadHex4(s: string): Option<int> {
    if |s| < 4 || HexValue(s[0]).None? || HexValue(s[1]).None? || HexValue(s[2]).None? || HexValue(s[3]).None? then None
    else Some(((HexValue(s[0]).value * 16 + HexValue(s[1]).value) * 16 + HexValue(s[2]).value) * 16
              + HexValue(s[3]).value)
  }

  /** One character inside a JSON string, all ASCII. */
  function Escape(c: CodePoint): string {
    if c == 0x5C then "\\\\"
    else if c == 0x22 then "\\\""
    else if c == 8 then "\\b"
    else if c == 12 then "\\f"
    else if c == 10 then "\\n"
    else if c == 13 then "\\r"
    else if c == 9 then "\\t"
    else if 0x20 <= c <= 0x7E then [c as char]
    else if c < 0x10000 then "\\u" + Hex4(c)
    else
      var v := c - 0x10000;
      "\\u" + Hex4(0xD800 + v / 0x400) + ("\\u" + Hex4(0xDC00 + v % 0x400))
  }

  function EscapeAll(s: Text): string {
    if s == [] then "" else Escape(s[0]) + EscapeAll(s[1..])
  }

  function Quote(s: Text): string {
    "\"" + EscapeAll(s) + "\""
  }

  function SimpleEscape(c: char): Option<CodePoint> {
    match c
    case '\"' => Some(0x22)
    case '\\' => Some(0x5C)
    case '/' => Some(0x2F)
    case 'b' => Some(8)
    case 'f' => Some(12)
    case 'n' => Some(10)
    case 'r' => Some(13)
    case 't' => Some(9)
    case _ => None
  }

  /** The code unit of a `\u` escape at the front of `s`. */
  function ReadUnit(s: string): Option<int> {
    if |s| >= 6 && s[0] == '\\' && s[1] == 'u' then ReadHex4(s[2..]) else None
  }

  /** Read the rest of a JSON string, after its opening quote. */
  function ReadString(s: string): (r: Option<(Text, string)>)
    ensures r.Some? ==> |r.value.1| < |s|
    decreases |s|
  {
    if s == "" then None
    else if s[0] == '\"' then Some(([], s[1..]))
    else if s[0] < ' ' then None
    else if s[0] != '\\' then
      var rest := ReadString(s[1..]);
      if rest.None? then None else Some(([s[0] as int] + rest.value.0, rest.value.1))
    else if ReadUnit(s).Some? then
      var unit := ReadUnit(s).value;
      UnitInRange(s);
      var next := ReadUnit(s[6..]);
      if IsHigh(unit) && next.Some? && IsLow(next.value) then
        var rest := ReadString(s[12..]);
        if rest.None? then None else Some(([Astral(unit, next.value)] + rest.value.0, rest.value.1))
      else
        var rest := ReadString(s[6..]);
        if rest.None? then None else Some(([unit] + rest.value.0, rest.value.1))
    else if |s| >= 2 && SimpleEscape(s[1]).Some? then
      var rest := ReadString(s[2..]);
      if rest.None? then None else Some(([SimpleEscape(s[1]).value] + rest.value.0, rest.value.1))
    else None
  }

  lemma HexInRange(c: char)
    requires HexValue(c).Some?
    ensures 0 <= HexValue(c).value < 16
  {
  }

  lemma UnitInRange(s: string)
    requires ReadUnit(s).Some?
    ensures 0 <= ReadUnit(s).value < 0x10000
  {
    HexInRange(s[2]);
    HexInRange(s[3]);
    HexInRange(s[4]);
    HexInRange(s[5]);
  }

  /** What a reader makes of a string: each high surrogate that is followed by a low one
      becomes the code point they encode. */
  function Combine(s: Text): Text {
    if |s| >= 2 && IsHigh(s[0]) && IsLow(s[1]) then [Astral(s[0], s[1])] + Combine(s[2..])
    else if s == [] then []
    else [s[0]] + Combine(s[1..])
  }

  /** No high surrogate is followed by a low one. */
  predicate PairFree(s: Text) {
    forall i :: 0 <= i < |s| - 1 ==> !(IsHigh(s[i]) && IsLow(s[i + 1]))
  }

  lemma {:induction false} CombineKeepsPairFree(s: Text)
    requires PairFree(s)
    ensures Combine(s) == s
  {
    if s != [] {
      assert PairFree(s[1..]);
      CombineKeepsPairFree(s[1..]);
    }
  }

  // ----- round trip of strings -----

  lemma HexReads(n: int)
    requires 0 <= n < 16
    ensures HexValue(HexDigit(n)) == Some(n)
  {
  }

  lemma Hex4Reads(n: int, rest: string)
    requires 0 <= n < 0x10000
    ensures ReadHex4(Hex4(n) + rest) == Some(n)
  {
    FourDigitsRead(n / 4096, n / 256 % 16, n / 16 % 16, n % 16, rest);
    Nibbles(n);
  }

  lemma Nibbles(n: int)
    requires 0 <= n < 0x10000
    ensures ((n / 4096 * 16 + n / 256 % 16) * 16 + n / 16 % 16) * 16 + n % 16 == n
  {
    var x, y, z := n / 16, n / 256, n / 4096;
    assert y == x / 16 && z == y / 16;
    assert y == z * 16 + y % 16;
    assert x == y * 16 + x % 16;
  }

  lemma FourDigitsRead(a: int, b: int, c: int, d: int, rest: string)
    requires 0 <= a < 16 && 0 <= b < 16 && 0 <= c < 16 && 0 <= d < 16
    ensures ReadHex4([HexDigit(a), HexDigit(b), HexDigit(c), HexDigit(d)] + rest) == Some(((a * 16 + b) * 16 + c) * 16 + d)
  {
    HexReads(a);
    HexReads(b);
    HexReads(c);
    HexReads(d);
  }

  lemma UnitReads(n: int, rest: string)
    requires 0 <= n < 0x10000
    ensures var s := "\\u" + Hex4(n) + rest;
      |s| >= 6 && s[0] == '\\' && ReadUnit(s) == Some(n) && s[6..] == rest
  {
    var s := "\\u" + Hex4(n) + rest;
    Hex4Reads(n, rest);
    assert s[2..] == Hex4(n) + rest;
  }

  /** A code point written as a `\u` escape. */
  predicate AsUnit(c: CodePoint) {
    c < 0x10000 && !(0x20 <= c <= 0x7E) && c != 8 && c != 12 && c != 10 && c != 13 && c != 9
  }

  lemma EscapeSplits(s: Text, rest: string)
    requires s != []
    ensures EscapeAll(s) + ("\"" + rest) == Escape(s[0]) + (EscapeAll(s[1..]) + ("\"" + rest))
  {
  }

  lemma Regroup(a: string, b: string, c: string)
    ensures (a + b) + c == a + (b + c)
  {
  }

  lemma EscapeAstral(c: CodePoint, tail: string)
    requires c >= 0x10000
    ensures var v := c - 0x10000;
      Escape(c) + tail == "\\u" + Hex4(0xD800 + v / 0x400) + ("\\u" + Hex4(0xDC00 + v % 0x400) + tail)
  {
    var v := c - 0x10000;
    var first, second := "\\u" + Hex4(0xD800 + v / 0x400), "\\u" + Hex4(0xDC00 + v % 0x400);
    Regroup(first, second, tail);
  }

  lemma UnitAtFront(c: CodePoint, tail: string)
    requires AsUnit(c) && c != 0x5C && c != 0x22
    ensures ReadUnit(Escape(c) + tail) == Some(c)
  {
    assert Escape(c) + tail == "\\u" + Hex4(c) + tail;
    UnitReads(c, tail);
  }

  lemma AstralAtFront(c: CodePoint, tail: string)
    requires c >= 0x10000
    ensures var unit := ReadUnit(Escape(c) + tail); unit.Some? && IsHigh(unit.value)
  {
    var v := c - 0x10000;
    EscapeAstral(c, tail);
    UnitReads(0xD800 + v / 0x400, "\\u" + Hex4(0xDC00 + v % 0x400) + tail);
  }

  lemma PlainAtFront(c: CodePoint, tail: string)
    requires c < 0x10000 && !AsUnit(c)
    ensures ReadUnit(Escape(c) + tail).None?
  {
    assert (Escape(c) + tail)[0] == Escape(c)[0];
    assert |Escape(c)| == 2 ==> (Escape(c) + tail)[1] == Escape(c)[1];
  }

  /** Only an escaped low surrogate reads as a low unit at the front. */
  lemma FrontUnit(s: Text, rest: string)
    ensures var unit := ReadUnit(EscapeAll(s) + ("\"" + rest));
      (unit.Some? && IsLow(unit.value)) <==> (s != [] && IsLow(s[0]))
    ensures s != [] && IsLow(s[0]) ==> ReadUnit(EscapeAll(s) + ("\"" + rest)).value == s[0]
  {
    if s != [] {
      var c := s[0];
      var tail := EscapeAll(s[1..]) + ("\"" + rest);
      EscapeSplits(s, rest);
      if AsUnit(c) {
        UnitAtFront(c, tail);
      } else if c >= 0x10000 {
        AstralAtFront(c, tail);
      } else {
        PlainAtFront(c, tail);
      }
    }
  }

  /** Is the escape at the front a low surrogate? */
  predicate LowInFront(s: string) {
    var unit := ReadUnit(s);
    unit.Some? && IsLow(unit.value)
  }

  lemma UnitThen(unit: CodePoint, tail: string, text: Text, rest: string)
    requires unit < 0x10000 && !(IsHigh(unit) && LowInFront(tail))
    requires ReadString(tail) == Some((text, rest))
    ensures ReadString("\\u" + Hex4(unit) + tail) == Some(([unit] + text, rest))
  {
    UnitReads(unit, tail);
  }

  lemma PairThen(high: CodePoint, low: CodePoint, tail: string, text: Text, rest: string)
    requires IsHigh(high) && IsLow(low)
    requires ReadString(tail) == Some((text, rest))
    ensures ReadString("\\u" + Hex4(high) + ("\\u" + Hex4(low) + tail)) == Some(([Astral(high, low)] + text, rest))
  {
    var more := "\\u" + Hex4(low) + tail;
    var all := "\\u" + Hex4(high) + more;
    UnitReads(high, more);
    UnitReads(low, tail);
    assert all[12..] == all[6..][6..];
  }

  lemma PlainThen(c: CodePoint, tail: string, text: Text, rest: string)
    requires c < 0x10000 && !AsUnit(c)
    requires ReadString(tail) == Some((text, rest))
    ensures ReadString(Escape(c) + tail) == Some(([c] + text, rest))
  {
    var all := Escape(c) + tail;
    if |Escape(c)| == 2 {
      assert all[2..] == tail && all[0] == '\\' && SimpleEscape(all[1]) == Some(c);
      assert ReadUnit(all).None?;
    } else {
      assert all[1..] == tail && all[0] == c as char;
    }
  }

  lemma CombineCases(s: Text)
    ensures |s| >= 2 && IsHigh(s[0]) && IsLow(s[1]) ==>
              Combine(s) == [Astral(s[0], s[1])] + Combine(s[2..]) && s == [s[0]] + ([s[1]] + s[2..])
    ensures s != [] && !(|s| >= 2 && IsHigh(s[0]) && IsLow(s[1])) ==>
              Combine(s) == [s[0]] + Combine(s[1..]) && s == [s[0]] + s[1..]
  {
  }

  lemma PairRound(s: Text, rest: string)
    requires |s| >= 2 && IsHigh(s[0]) && IsLow(s[1])
    requires ReadString(EscapeAll(s[2..]) + ("\"" + rest)) == Some((Combine(s[2..]), rest))
    ensures ReadString(EscapeAll(s) + ("\"" + rest)) == Some((Combine(s), rest))
  {
    EscapeSplits(s, rest);
    EscapeSplits(s[1..], rest);
    assert s[1..][1..] == s[2..];
    CombineCases(s);
    PairThen(s[0], s[1], EscapeAll(s[2..]) + ("\"" + rest), Combine(s[2..]), rest);
  }

  lemma UnitRound(s: Text, rest: string)
    requires s != [] && AsUnit(s[0]) && !(|s| >= 2 && IsHigh(s[0]) && IsLow(s[1]))
    requires ReadString(EscapeAll(s[1..]) + ("\"" + rest)) == Some((Combine(s[1..]), rest))
    ensures ReadString(EscapeAll(s) + ("\"" + rest)) == Some((Combine(s), rest))
  {
    EscapeSplits(s, rest);
    FrontUnit(s[1..], rest);
    UnitThen(s[0], EscapeAll(s[1..]) + ("\"" + rest), Combine(s[1..]), rest);
  }

  lemma AstralRound(s: Text, rest: string)
    requires s != [] && s[0] >= 0x10000
    requires ReadString(EscapeAll(s[1..]) + ("\"" + rest)) == Some((Combine(s[1..]), rest))
    ensures ReadString(EscapeAll(s) + ("\"" + rest)) == Some((Combine(s), rest))
  {
    EscapeSplits(s, rest);
    var tail := EscapeAll(s[1..]) + ("\"" + rest);
    AstralThen(s[0], tail, Combine(s[1..]), rest);
  }

  lemma AstralThen(c: CodePoint, tail: string, text: Text, rest: string)
    requires c >= 0x10000
    requires ReadString(tail) == Some((text, rest))
    ensures ReadString(Escape(c) + tail) == Some(([c] + text, rest))
  {
    var v := c - 0x10000;
    EscapeAstral(c, tail);
    PairThen(0xD800 + v / 0x400, 0xDC00 + v % 0x400, tail, text, rest);
    assert Astral(0xD800 + v / 0x400, 0xDC00 + v % 0x400) == c;
  }

  /** Reading what was written gives the text with its surrogate pairs combined. */
  lemma {:induction false} StringRound(s: Text, rest: string)
    ensures ReadString(EscapeAll(s) + ("\"" + rest)) == Some((Combine(s), rest))
    decreases |s|
  {
    if s == [] {
      assert EscapeAll(s) + ("\"" + rest) == "\"" + rest;
    } else {
      StringRound(s[1..], rest);
      if |s| >= 2 && IsHigh(s[0]) && IsLow(s[1]) {
        StringRound(s[2..], rest);
        PairRound(s, rest);
      } else if AsUnit(s[0]) {
        UnitRound(s, rest);
      } else if s[0] >= 0x10000 {
        AstralRound(s, rest);
      } else {
        EscapeSplits(s, rest);
        PlainThen(s[0], EscapeAll(s[1..]) + ("\"" + rest), Combine(s[1..]), rest);
      }
    }
  }

  lemma EscapePair(high: CodePoint, low: CodePoint)
    requires IsHigh(high) && IsLow(low)
    ensures Escape(Astral(high, low)) == Escape(high) + Escape(low)
  {
    var v := Astral(high, low) - 0x10000;
    assert v / 0x400 == high - 0xD800 && v % 0x400 == low - 0xDC00;
  }

  lemma EscapeCons(c: CodePoint, s: Text)
    ensures EscapeAll([c] + s) == Escape(c) + EscapeAll(s)
  {
    assert ([c] + s)[1..] == s;
  }

  lemma EscapeAfterPair(high: CodePoint, low: CodePoint, s: Text)
    requires IsHigh(high) && IsLow(low)
    ensures EscapeAll([Astral(high, low)] + s) == EscapeAll([high] + ([low] + s))
  {
    EscapePair(high, low);
    EscapeCons(Astral(high, low), s);
    EscapeCons(low, s);
    EscapeCons(high, [low] + s);
    Regroup(Escape(high), Escape(low), EscapeAll(s));
  }

  lemma EscapeSame(c: CodePoint, s: Text, t: Text)
    requires EscapeAll(s) == EscapeAll(t)
    ensures EscapeAll([c] + s) == EscapeAll([c] + t)
  {
    EscapeCons(c, s);
    EscapeCons(c, t);
  }

  /** Combining surrogate pairs does not change what is written. */
  lemma {:induction false} EscapeCombined(s: Text)
    ensures EscapeAll(Combine(s)) == EscapeAll(s)
    decreases |s|
  {
    CombineCases(s);
    if |s| >= 2 && IsHigh(s[0]) && IsLow(s[1]) {
      var t := s[2..];
      EscapeCombined(t);
      EscapeSame(s[1], Combine(t), t);
      EscapeSame(s[0], [s[1]] + Combine(t), [s[1]] + t);
      EscapeAfterPair(s[0], s[1], Combine(t));
    } else if s != [] {
      EscapeCombined(s[1..]);
      EscapeSame(s[0], Combine(s[1..]), s[1..]);
    }
  }

  // ----- decimal integers -----

  function Digits(n: nat): string {
    if n < 10 then ['0' + n as char] else Digits(n / 10) + ['0' + (n % 10) as char]
  }

  function Decimal(n: int): string {
    if n < 0 then "-" + Digits(-n) else Digits(n)
  }

  predicate IsDigit(c: char) {
    '0' <= c <= '9'
  }

  function ReadDigits(s: string, acc: nat): (r: (nat, string))
    ensures |r.1| <= |s|
  {
    if s != "" && IsDigit(s[0]) then ReadDigits(s[1..], acc * 10 + (s[0] as int - '0' as int)) else (acc, s)
  }

  function ReadDecimal(s: string): (r: Option<(int, string)>)
    ensures r.Some? ==> |r.value.1| < |s|
  {
    if s != "" && s[0] == '-' then
      if |s| >= 2 && IsDigit(s[1]) then
        var (n, rest) := ReadDigits(s[2..], s[1] as int - '0' as int);
        var m: int := n;
        Some((-m, rest))
      else None
    else if s != "" && IsDigit(s[0]) then
      var (n, rest) := ReadDigits(s[1..], s[0] as int - '0' as int);
      Some((n, rest))
    else None
  }

  lemma {:induction false} DigitsRead(n: nat, tail: string)
    ensures ReadDigits(Digits(n) + tail, 0) == ReadDigits(tail, n)
    ensures Digits(n) != "" && IsDigit(Digits(n)[0])
  {
    var last := ['0' + (n % 10) as char];
    if n < 10 {
      assert (Digits(n) + tail)[1..] == tail;
    } else {
      DigitsRead(n / 10, last + tail);
      assert Digits(n) + tail == Digits(n / 10) + (last + tail);
      assert (last + tail)[1..] == tail;
    }
  }

  lemma DecimalRound(n: int, rest: string)
    requires rest == "" || !IsDigit(rest[0])
    ensures ReadDecimal(Decimal(n) + rest) == Some((n, rest))
  {
    var m := if n < 0 then -n else n;
    DigitsRead(m, rest);
    var s := Digits(m) + rest;
    assert ReadDigits(s, 0) == ReadDigits(s[1..], s[0] as int - '0' as int);
    if n < 0 {
      assert (Decimal(n) + rest)[1..] == s;
      assert (Decimal(n) + rest)[2..] == s[1..];
    }
  }
}
