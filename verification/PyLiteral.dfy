/** Writing a text as a Python literal and lexing it back.

    The lexer follows section 2.4.1 of the Python Language Reference for string literals:
    line endings read as newlines, a triple-quoted string ends at three unescaped quotes,
    and the escape sequences.  Octal and named escapes are never written and do not lex here. */
module PyLiterals {
  import opened Options
  import opened Texts
  import J = JsonText

  const BACKSLASH: CodePoint := 0x5C
  const QUOTE: CodePoint := 0x22
  const APOSTROPHE: CodePoint := 0x27
  const NEWLINE: CodePoint := 10
  const RETURN: CodePoint := 13
  const TAB: CodePoint := 9
  const TRIPLE: Text := [QUOTE, QUOTE, QUOTE]

  // ----- the lexer -----

  /** Both line endings read as one newline. */
  function Normalize(s: Text): Text {
    if s == [] then []
    else if s[0] == RETURN then [NEWLINE] + Normalize(if |s| >= 2 && s[1] == NEWLINE then s[2..] else s[1..])
    else [s[0]] + Normalize(s[1..])
  }

  function HexOf(c: CodePoint): Option<int> {
    if c < 128 then J.HexValue(c as char) else None
  }

  /** The value of the first `n` characters as hexadecimal digits. */
  function ReadHex(s: Text, n: nat, acc: nat): Option<nat> {
    if n == 0 then Some(acc)
    else if s == [] || HexOf(s[0]).None? then None
    else
      HexInRange(s[0]);
      ReadHex(s[1..], n - 1, acc * 16 + HexOf(s[0]).value)
  }

  lemma HexInRange(c: CodePoint)
    requires HexOf(c).Some?
    ensures 0 <= HexOf(c).value < 16
  {
  }

  /** The text of one escape sequence, after its backslash, and what follows it. */
  function ReadEscape(s: Text): (r: Option<(Text, Text)>)
    ensures r.Some? ==> |r.value.1| < |s|
  {
    if s == [] then None
    else if s[0] == NEWLINE then Some(([], s[1..]))
    else if s[0] == BACKSLASH || s[0] == QUOTE || s[0] == APOSTROPHE then Some(([s[0]], s[1..]))
    else if s[0] == 'a' as int then Some(([7], s[1..]))
    else if s[0] == 'b' as int then Some(([8], s[1..]))
    else if s[0] == 'f' as int then Some(([12], s[1..]))
    else if s[0] == 'n' as int then Some(([NEWLINE], s[1..]))
    else if s[0] == 'r' as int then Some(([RETURN], s[1..]))
    else if s[0] == 't' as int then Some(([TAB], s[1..]))
    else if s[0] == 'v' as int then Some(([11], s[1..]))
    else if s[0] == 'x' as int then HexEscape(s, 2)
    else if s[0] == 'u' as int then HexEscape(s, 4)
    else if s[0] == 'U' as int then HexEscape(s, 8)
    else if '0' as int <= s[0] <= '7' as int || s[0] == 'N' as int then None
    else Some(([BACKSLASH, s[0]], s[1..]))
  }

  function HexEscape(s: Text, n: nat): (r: Option<(Text, Text)>)
    requires s != []
    ensures r.Some? ==> |r.value.1| < |s|
  {
    var value := if |s| > n then ReadHex(s[1..n + 1], n, 0) else None;
    if value.None? || value.value >= 0x110000 then None else Some(([value.value], s[n + 1..]))
  }

  predicate StartsTriple(s: Text) {
    |s| >= 3 && s[0] == QUOTE && s[1] == QUOTE && s[2] == QUOTE
  }

  /** Read a string body up to its closing quotes. */
  function ReadBody(s: Text, quote: CodePoint, triple: bool): (r: Option<(Text, Text)>)
    decreases |s|
  {
    if s == [] then None
    else if triple && StartsTriple(s) then Some(([], s[3..]))
    else if !triple && s[0] == quote then Some(([], s[1..]))
    else if !triple && s[0] == NEWLINE then None
    else if s[0] == BACKSLASH then
      var escape := ReadEscape(s[1..]);
      if escape.None? then None
      else
        var rest := ReadBody(escape.value.1, quote, triple);
        if rest.None? then None else Some((escape.value.0 + rest.value.0, rest.value.1))
    else
      var rest := ReadBody(s[1..], quote, triple);
      if rest.None? then None else Some(([s[0]] + rest.value.0, rest.value.1))
  }

  /** The value of a source fragment that is one string literal, with an optional `u` prefix. */
  function Evaluate(source: Text): Option<Text> {
    var normal := Normalize(source);
    var s := if normal != [] && normal[0] == 'u' as int then normal[1..] else normal;
    var read :=
      if StartsTriple(s) then ReadBody(s[3..], QUOTE, true)
      else if s != [] && (s[0] == QUOTE || s[0] == APOSTROPHE) then ReadBody(s[1..], s[0], false)
      else None;
    if read.Some? && read.value.1 == [] then Some(read.value.0) else None
  }

  // ----- the writer -----

  function DoubleBackslashes(s: Text): Text {
    if s == [] then [] else (if s[0] == BACKSLASH then [BACKSLASH, BACKSLASH] else [s[0]]) + DoubleBackslashes(s[1..])
  }

  const ESCAPED_TRIPLE: Text := [BACKSLASH, QUOTE, BACKSLASH, QUOTE, BACKSLASH, QUOTE]

  /** Replace every three quotes, leftmost first. */
  function EscapeTriples(s: Text): Text {
    if s == [] then []
    else if StartsTriple(s) then ESCAPED_TRIPLE + EscapeTriples(s[3..])
    else [s[0]] + EscapeTriples(s[1..])
  }

  /** A body that ends in a quote gets that quote escaped. */
  function EscapeLast(body: Text): Text {
    if body != [] && body[|body| - 1] == QUOTE then body[..|body| - 1] + [BACKSLASH, QUOTE] else body
  }

  function TripleQuoted(s: Text): Text {
    TRIPLE + (EscapeLast(EscapeTriples(DoubleBackslashes(s))) + TRIPLE)
  }

  function Hex(n: int, digits: nat): (r: Text)
    requires n >= 0
    ensures |r| == digits
  {
    if digits == 0 then [] else Hex(n / 16, digits - 1) + [J.HexDigit(n % 16) as int]
  }

  function ReprQuote(s: Text): CodePoint {
    if APOSTROPHE in s && QUOTE !in s then QUOTE else APOSTROPHE
  }

  function ReprChar(c: CodePoint, quote: CodePoint, printable: CodePoint -> bool): Text {
    if c == quote || c == BACKSLASH then [BACKSLASH, c]
    else if c == TAB then [BACKSLASH, 't' as int]
    else if c == NEWLINE then [BACKSLASH, 'n' as int]
    else if c == RETURN then [BACKSLASH, 'r' as int]
    else if 0x20 <= c < 0x7F || (c > 0x7F && printable(c)) then [c]
    else if c <= 0xFF then [BACKSLASH, 'x' as int] + Hex(c, 2)
    else if c <= 0xFFFF then [BACKSLASH, 'u' as int] + Hex(c, 4)
    else [BACKSLASH, 'U' as int] + Hex(c, 8)
  }

  function ReprBody(s: Text, quote: CodePoint, printable: CodePoint -> bool): Text {
    if s == [] then [] else ReprChar(s[0], quote, printable) + ReprBody(s[1..], quote, printable)
  }

  function Repr(s: Text, printable: CodePoint -> bool): Text {
    var quote := ReprQuote(s);
    [quote] + (ReprBody(s, quote, printable) + [quote])
  }

  /** Newlines, tabs and printable characters, with at least one newline. */
  predicate MultiLine(s: Text, printable: CodePoint -> bool) {
    NEWLINE in s && forall i :: 0 <= i < |s| ==> s[i] == NEWLINE || s[i] == TAB || printable(s[i])
  }

  /** A Python literal for a text: triple-quoted when multi-line and when that reads back. */
  function Literal(s: Text, printable: CodePoint -> bool): Text {
    if MultiLine(s, printable) && Evaluate(TripleQuoted(s)) == Some(s) then TripleQuoted(s) else Repr(s, printable)
  }

  function ToCrlf(s: Text): Text {
    if s == [] then [] else (if s[0] == NEWLINE then [RETURN, NEWLINE] else [s[0]]) + ToCrlf(s[1..])
  }

  // ----- the triple-quoted form -----

  /** Both replacements in one pass. */
  function Body(s: Text): Text {
    if s == [] then []
    else if StartsTriple(s) then ESCAPED_TRIPLE + Body(s[3..])
    else if s[0] == BACKSLASH then [BACKSLASH, BACKSLASH] + Body(s[1..])
    else [s[0]] + Body(s[1..])
  }

  lemma {:induction false} BodyIsBoth(s: Text)
    ensures EscapeTriples(DoubleBackslashes(s)) == Body(s)
    decreases |s|
  {
    if s == [] {
    } else if StartsTriple(s) {
      DoublesQuotes(s);
      var d := DoubleBackslashes(s);
      assert d[3..] == DoubleBackslashes(s[3..]);
      BodyIsBoth(s[3..]);
    } else {
      BodyIsBoth(s[1..]);
      var d, rest := DoubleBackslashes(s), DoubleBackslashes(s[1..]);
      if s[0] == BACKSLASH {
        assert d == [BACKSLASH] + ([BACKSLASH] + rest);
        assert d[1..] == [BACKSLASH] + rest && d[1..][1..] == rest;
      } else {
        assert d[1..] == rest;
        FrontQuotes(s);
      }
    }
  }

  lemma DoubleFront(s: Text)
    ensures s != [] && s[0] == QUOTE ==> DoubleBackslashes(s) == [QUOTE] + DoubleBackslashes(s[1..])
    ensures (DoubleBackslashes(s) != [] && DoubleBackslashes(s)[0] == QUOTE) <==> (s != [] && s[0] == QUOTE)
  {
  }

  lemma DoublesQuotes(s: Text)
    requires StartsTriple(s)
    ensures DoubleBackslashes(s) == TRIPLE + DoubleBackslashes(s[3..])
  {
    DoubleFront(s);
    DoubleFront(s[1..]);
    DoubleFront(s[2..]);
    var rest := DoubleBackslashes(s[3..]);
    assert s[1..][1..] == s[2..] && s[2..][1..] == s[3..];
    assert [QUOTE] + ([QUOTE] + ([QUOTE] + rest)) == TRIPLE + rest;
  }

  /** Doubling backslashes neither makes nor breaks three quotes at the front. */
  lemma FrontQuotes(s: Text)
    ensures StartsTriple(DoubleBackslashes(s)) <==> StartsTriple(s)
  {
    DoubleFront(s);
    if s != [] && s[0] == QUOTE {
      DoubleFront(s[1..]);
      var d1 := DoubleBackslashes(s[1..]);
      assert DoubleBackslashes(s)[1..] == d1;
      if |s| >= 2 && s[1] == QUOTE {
        DoubleFront(s[2..]);
        assert s[1..][1..] == s[2..];
        assert d1[1..] == DoubleBackslashes(s[2..]);
      }
    }
  }

  /** Does the body, cut as the replacement cuts it, end other than in an escaped triple? */
  predicate GoodEnd(s: Text) {
    s == [] || (if StartsTriple(s) then |s| > 3 && GoodEnd(s[3..]) else GoodEnd(s[1..]))
  }

  lemma EscapeLastAppend(a: Text, b: Text)
    requires b != []
    ensures EscapeLast(a + b) == a + EscapeLast(b)
  {
    if b[|b| - 1] == QUOTE {
      assert (a + b)[..|a + b| - 1] == a + b[..|b| - 1];
    }
  }

  /** The finished body of a text. */
  function Finished(s: Text): Text {
    EscapeLast(Body(s)) + TRIPLE
  }

  /** Cutting the text after a chunk cuts its body there too. */
  lemma FinishedSplits(chunk: Text, rest: Text, s: Text)
    requires rest != [] && Body(s) == chunk + Body(rest)
    ensures Finished(s) == chunk + Finished(rest)
  {
    BodyStarts(rest);
    EscapeLastAppend(chunk, Body(rest));
  }

  lemma BodyStarts(s: Text)
    requires s != []
    ensures Body(s) != []
    ensures s[0] != QUOTE ==> Body(s)[0] != QUOTE
  {
  }

  /** A body that starts with no quote, or holds one quote only, finishes without one in front. */
  lemma FinishedStarts(s: Text)
    requires s != [] && (s[0] != QUOTE || |s| == 1)
    ensures Finished(s)[0] != QUOTE
  {
    if |s| == 1 && s[0] == QUOTE {
      assert s[1..] == [];
      assert Body(s) == [QUOTE];
      assert EscapeLast([QUOTE]) == [BACKSLASH, QUOTE];
    } else {
      BodyStarts(s);
      var b := Body(s);
      assert EscapeLast(b)[0] == b[0];
    }
  }

  lemma ReadsEscaped(c: CodePoint, tail: Text)
    requires c == QUOTE || c == BACKSLASH
    requires ReadBody(tail, QUOTE, true).Some?
    ensures var r := ReadBody(tail, QUOTE, true).value;
      ReadBody([BACKSLASH, c] + tail, QUOTE, true) == Some(([c] + r.0, r.1))
  {
    var s := [BACKSLASH, c] + tail;
    assert s[1..][1..] == tail;
  }

  lemma ReadsEscapedTriple(tail: Text)
    requires ReadBody(tail, QUOTE, true).Some?
    ensures var r := ReadBody(tail, QUOTE, true).value;
      ReadBody(ESCAPED_TRIPLE + tail, QUOTE, true) == Some((TRIPLE + r.0, r.1))
  {
    ReadsEscaped(QUOTE, tail);
    ReadsEscaped(QUOTE, [BACKSLASH, QUOTE] + tail);
    ReadsEscaped(QUOTE, [BACKSLASH, QUOTE] + ([BACKSLASH, QUOTE] + tail));
    EscapedTripleIs(tail);
    TripleIs(ReadBody(tail, QUOTE, true).value.0);
  }

  lemma EscapedTripleIs(tail: Text)
    ensures [BACKSLASH, QUOTE] + ([BACKSLASH, QUOTE] + ([BACKSLASH, QUOTE] + tail)) == ESCAPED_TRIPLE + tail
  {
  }

  lemma TripleIs(r: Text)
    ensures [QUOTE] + ([QUOTE] + ([QUOTE] + r)) == TRIPLE + r
  {
  }

  lemma ReadsPlain(c: CodePoint, tail: Text)
    requires c != BACKSLASH && (c == QUOTE ==> !StartsTriple([c] + tail))
    requires ReadBody(tail, QUOTE, true).Some?
    ensures var r := ReadBody(tail, QUOTE, true).value;
      ReadBody([c] + tail, QUOTE, true) == Some(([c] + r.0, r.1))
  {
    assert ([c] + tail)[1..] == tail;
  }

  /** What the lexer makes of a finished body: the text and nothing left, or, after an escaped
      triple at the very end, a stray quote. */
  ghost predicate ReadsBack(s: Text) {
    var r := ReadBody(Finished(s), QUOTE, true);
    r.Some? && (if GoodEnd(s) then r.value == (s, []) else r.value.1 == [QUOTE])
  }

  lemma TripleFinished()
    ensures Finished(TRIPLE) ==
            [BACKSLASH, QUOTE] + ([BACKSLASH, QUOTE] + ([BACKSLASH, BACKSLASH] + ([QUOTE] + TRIPLE)))
  {
    assert TRIPLE[3..] == [];
    assert Body(TRIPLE) == ESCAPED_TRIPLE;
    assert EscapeLast(ESCAPED_TRIPLE) == [BACKSLASH, QUOTE, BACKSLASH, QUOTE, BACKSLASH] + [BACKSLASH, QUOTE];
  }

  lemma FourQuotesRead()
    ensures ReadBody([QUOTE] + TRIPLE, QUOTE, true) == Some(([], [QUOTE]))
  {
    assert StartsTriple([QUOTE] + TRIPLE) && ([QUOTE] + TRIPLE)[3..] == [QUOTE];
  }

  lemma EndingTriple(s: Text)
    requires StartsTriple(s) && |s| == 3
    ensures ReadsBack(s)
  {
    assert s == TRIPLE;
    var four := [QUOTE] + TRIPLE;
    TripleFinished();
    FourQuotesRead();
    ReadsEscaped(BACKSLASH, four);
    ReadsEscaped(QUOTE, [BACKSLASH, BACKSLASH] + four);
    ReadsEscaped(QUOTE, [BACKSLASH, QUOTE] + ([BACKSLASH, BACKSLASH] + four));
    assert !GoodEnd(s);
  }

  lemma LoneQuote(s: Text)
    requires s == [QUOTE]
    ensures ReadsBack(s)
  {
    assert s[1..] == [] && Body(s) == [QUOTE];
    assert EscapeLast([QUOTE]) == [BACKSLASH, QUOTE];
    assert StartsTriple(TRIPLE) && TRIPLE[3..] == [];
    assert Finished(s) == [BACKSLASH, QUOTE] + TRIPLE;
    ReadsEscaped(QUOTE, TRIPLE);
    assert GoodEnd(s);
  }

  /** A quote that does not start three is read as itself. */
  lemma SingleQuote(s: Text)
    requires |s| >= 2 && s[0] == QUOTE && !StartsTriple(s)
    requires ReadsBack(s[1..])
    ensures ReadsBack(s)
  {
    var rest := s[1..];
    FinishedSplits([QUOTE], rest, s);
    var f := Finished(rest);
    if rest[0] != QUOTE || |rest| == 1 {
      FinishedStarts(rest);
    } else {
      assert Body(rest) == [QUOTE] + Body(rest[1..]);
      FinishedSplits([QUOTE], rest[1..], rest);
      FinishedStarts(rest[1..]);
    }
    ReadsPlain(QUOTE, f);
    assert s == [QUOTE] + rest;
  }

  lemma BackslashOrPlain(s: Text)
    requires s != [] && s[0] != QUOTE
    requires ReadsBack(s[1..])
    ensures ReadsBack(s)
  {
    var rest := s[1..];
    var chunk := if s[0] == BACKSLASH then [BACKSLASH, BACKSLASH] else [s[0]];
    assert s == [s[0]] + rest;
    assert Body(s) == chunk + Body(rest);
    if rest == [] {
      assert Body(s) == chunk;
      assert Finished(s) == chunk + Finished(rest);
    } else {
      FinishedSplits(chunk, rest, s);
    }
    if s[0] == BACKSLASH {
      ReadsEscaped(BACKSLASH, Finished(rest));
    } else {
      ReadsPlain(s[0], Finished(rest));
    }
  }

  lemma LeadingTriple(s: Text)
    requires StartsTriple(s) && |s| > 3
    requires ReadsBack(s[3..])
    ensures ReadsBack(s)
  {
    FinishedSplits(ESCAPED_TRIPLE, s[3..], s);
    ReadsEscapedTriple(Finished(s[3..]));
    assert s == TRIPLE + s[3..];
  }

  lemma {:induction false} BodyReadsBack(s: Text)
    ensures ReadsBack(s)
    decreases |s|
  {
    if s == [] {
      assert Finished(s) == TRIPLE;
    } else if StartsTriple(s) {
      if |s| == 3 {
        EndingTriple(s);
      } else {
        BodyReadsBack(s[3..]);
        LeadingTriple(s);
      }
    } else {
      BodyReadsBack(s[1..]);
      if s[0] != QUOTE {
        BackslashOrPlain(s);
      } else if |s| == 1 {
        LoneQuote(s);
      } else {
        SingleQuote(s);
      }
    }
  }

  // ----- the condition, in terms of the text -----

  /** How many quotes the text ends in. */
  function TrailingQuotes(s: Text): nat {
    if s != [] && s[|s| - 1] == QUOTE then 1 + TrailingQuotes(s[..|s| - 1]) else 0
  }

  lemma {:induction false} TrailingAppend(a: Text, b: Text)
    ensures TrailingQuotes(b) <= |b|
    ensures TrailingQuotes(a + b) == if TrailingQuotes(b) == |b| then |b| + TrailingQuotes(a) else TrailingQuotes(b)
    decreases |b|
  {
    if b == [] {
      assert a + b == a;
    } else {
      var c := b[..|b| - 1];
      TrailingAppend(a, c);
      assert (a + b)[..|a + b| - 1] == a + c;
    }
  }

  lemma {:induction false} AllQuotes(s: Text, i: nat)
    requires i < |s| && TrailingQuotes(s) == |s|
    ensures s[i] == QUOTE
    decreases |s|
  {
    TrailingAppend([], s[..|s| - 1]);
    if i < |s| - 1 {
      AllQuotes(s[..|s| - 1], i);
    }
  }

  lemma ThreeTrail()
    ensures TrailingQuotes(TRIPLE) == 3
  {
    assert TrailingQuotes([QUOTE]) == 1 by { assert [QUOTE][..0] == []; }
    TrailingAppend([QUOTE], [QUOTE]);
    assert [QUOTE] + [QUOTE] == [QUOTE, QUOTE];
    TrailingAppend([QUOTE, QUOTE], [QUOTE]);
    assert [QUOTE, QUOTE] + [QUOTE] == TRIPLE;
  }

  /** The end is bad exactly when the text ends in three, six, nine ... quotes. */
  lemma {:induction false} GoodEndIsNoMultipleOfThree(s: Text)
    ensures GoodEnd(s) <==> TrailingQuotes(s) == 0 || TrailingQuotes(s) % 3 != 0
    decreases |s|
  {
    if s == [] {
    } else if StartsTriple(s) {
      assert s == TRIPLE + s[3..];
      TrailingAppend(TRIPLE, s[3..]);
      ThreeTrail();
      GoodEndIsNoMultipleOfThree(s[3..]);
    } else {
      var rest := s[1..];
      assert s == [s[0]] + rest;
      TrailingAppend([s[0]], rest);
      assert [s[0]][..0] == [];
      GoodEndIsNoMultipleOfThree(rest);
      if s[0] == QUOTE && TrailingQuotes(rest) == |rest| {
        if |rest| >= 2 {
          AllQuotes(rest, 0);
          AllQuotes(rest, 1);
        }
      }
    }
  }

  // ----- line endings -----

  predicate NoReturn(s: Text) {
    forall i :: 0 <= i < |s| ==> s[i] != RETURN
  }

  lemma {:induction false} NormalizeClean(s: Text)
    requires NoReturn(s)
    ensures Normalize(s) == s && Normalize(ToCrlf(s)) == s
  {
    if s != [] {
      assert NoReturn(s[1..]);
      NormalizeClean(s[1..]);
      var rest := ToCrlf(s[1..]);
      if s[0] == NEWLINE {
        var both := [RETURN, NEWLINE] + rest;
        assert both[2..] == rest;
      } else {
        assert ([s[0]] + rest)[1..] == rest;
      }
    }
  }

  lemma {:induction false} CleanDoubled(s: Text)
    requires NoReturn(s)
    ensures NoReturn(Body(s))
    decreases |s|
  {
    if s != [] {
      CleanDoubled(s[1..]);
      if StartsTriple(s) {
        CleanDoubled(s[3..]);
      }
    }
  }

  lemma CleanTriple(s: Text)
    requires NoReturn(s)
    ensures NoReturn(TripleQuoted(s)) && TripleQuoted(s) == TRIPLE + Finished(s)
  {
    BodyIsBoth(s);
    CleanDoubled(s);
  }

  /** Evaluation does not depend on the file's line endings, nor on a `u` prefix. */
  lemma EvaluateClean(x: Text)
    requires NoReturn(x) && x != [] && (x[0] == QUOTE || x[0] == APOSTROPHE)
    ensures Evaluate(ToCrlf(x)) == Evaluate(x)
    ensures Evaluate(['u' as int] + x) == Evaluate(x)
    ensures Evaluate(ToCrlf(['u' as int] + x)) == Evaluate(x)
  {
    var prefixed := ['u' as int] + x;
    assert prefixed[1..] == x;
    NormalizeClean(x);
    NormalizeClean(prefixed);
  }

  /** The triple-quoted form evaluates to the text exactly when the text does not end in a
      run of three, six, nine ... quotes; otherwise it does not lex as one literal. */
  lemma TripleQuotedReadsBack(s: Text)
    requires NoReturn(s)
    ensures var good := TrailingQuotes(s) == 0 || TrailingQuotes(s) % 3 != 0;
      Evaluate(TripleQuoted(s)) == if good then Some(s) else None
  {
    GoodEndIsNoMultipleOfThree(s);
    CleanTriple(s);
    NormalizeClean(TripleQuoted(s));
    BodyReadsBack(s);
    assert TripleQuoted(s)[3..] == Finished(s);
  }

  // ----- repr -----

  function Pow16(n: nat): nat {
    if n == 0 then 1 else 16 * Pow16(n - 1)
  }

  lemma HexDigitReads(n: int)
    requires 0 <= n < 16
    ensures HexOf(J.HexDigit(n) as int) == Some(n)
  {
    J.HexReads(n);
  }

  lemma {:induction false} ReadHexSnoc(s: Text, d: CodePoint, acc: nat)
    requires HexOf(d).Some? && ReadHex(s, |s|, acc).Some?
    ensures ReadHex(s + [d], |s| + 1, acc) == Some(ReadHex(s, |s|, acc).value * 16 + HexOf(d).value)
  {
    HexInRange(d);
    if s == [] {
      assert [d][1..] == [];
      assert s + [d] == [d];
    } else {
      HexInRange(s[0]);
      assert (s + [d])[1..] == s[1..] + [d];
      ReadHexSnoc(s[1..], d, acc * 16 + HexOf(s[0]).value);
    }
  }

  lemma {:induction false} HexRound(n: nat, digits: nat)
    requires n < Pow16(digits)
    ensures ReadHex(Hex(n, digits), digits, 0) == Some(n)
  {
    if digits > 0 {
      HexRound(n / 16, digits - 1);
      HexDigitReads(n % 16);
      ReadHexSnoc(Hex(n / 16, digits - 1), J.HexDigit(n % 16) as int, 0);
    }
  }

  lemma HexEscapeReads(marker: CodePoint, c: CodePoint, digits: nat, tail: Text)
    requires c < Pow16(digits)
    ensures HexEscape([marker] + Hex(c, digits) + tail, digits) == Some(([c], tail))
  {
    var s := [marker] + Hex(c, digits) + tail;
    HexRound(c, digits);
    assert s[1..digits + 1] == Hex(c, digits);
    assert s[digits + 1..] == tail;
  }

  lemma PlainReads(c: CodePoint, quote: CodePoint, tail: Text)
    requires c != quote && c != BACKSLASH && c != NEWLINE && ReadBody(tail, quote, false).Some?
    ensures var r := ReadBody(tail, quote, false).value;
      ReadBody([c] + tail, quote, false) == Some(([c] + r.0, r.1))
  {
    assert ([c] + tail)[1..] == tail;
  }

  /** An escape sequence denotes what the lexer reads from it. */
  lemma EscapeReads(w: Text, quote: CodePoint, value: Text, tail: Text)
    requires quote != BACKSLASH && ReadBody(tail, quote, false).Some?
    requires ReadEscape(w + tail) == Some((value, tail))
    ensures var r := ReadBody(tail, quote, false).value;
      ReadBody([BACKSLASH] + (w + tail), quote, false) == Some((value + r.0, r.1))
  {
    assert ([BACKSLASH] + (w + tail))[1..] == w + tail;
  }

  lemma LetterReads(w: CodePoint, value: CodePoint, tail: Text)
    requires (w == value && (w == BACKSLASH || w == QUOTE || w == APOSTROPHE))
             || (w == 't' as int && value == TAB) || (w == 'n' as int && value == NEWLINE) || (w == 'r' as int && value == RETURN)
    ensures ReadEscape([w] + tail) == Some(([value], tail))
  {
    assert ([w] + tail)[1..] == tail;
  }

  lemma HexFits(c: CodePoint)
    ensures c <= 0xFF ==> c < Pow16(2)
    ensures c <= 0xFFFF ==> c < Pow16(4)
    ensures c < Pow16(8)
  {
    assert Pow16(2) == 256;
    assert Pow16(4) == 16 * (16 * Pow16(2));
    assert Pow16(8) == 16 * (16 * (16 * (16 * Pow16(4))));
  }

  lemma HexReads(c: CodePoint, tail: Text)
    ensures c <= 0xFF ==> ReadEscape(['x' as int] + Hex(c, 2) + tail) == Some(([c], tail))
    ensures c <= 0xFFFF ==> ReadEscape(['u' as int] + Hex(c, 4) + tail) == Some(([c], tail))
    ensures ReadEscape(['U' as int] + Hex(c, 8) + tail) == Some(([c], tail))
  {
    HexFits(c);
    if c <= 0xFF {
      HexEscapeReads('x' as int, c, 2, tail);
    }
    if c <= 0xFFFF {
      HexEscapeReads('u' as int, c, 4, tail);
    }
    HexEscapeReads('U' as int, c, 8, tail);
  }

  predicate Letter(w: Text, c: CodePoint) {
    |w| == 2 && w[0] == BACKSLASH &&
    ((w[1] == c && (c == BACKSLASH || c == QUOTE || c == APOSTROPHE))
     || (w[1] == 't' as int && c == TAB) || (w[1] == 'n' as int && c == NEWLINE) || (w[1] == 'r' as int && c == RETURN))
  }

  predicate HexForm(w: Text, c: CodePoint) {
    || (c <= 0xFF && w == [BACKSLASH, 'x' as int] + Hex(c, 2))
    || (c <= 0xFFFF && w == [BACKSLASH, 'u' as int] + Hex(c, 4))
    || w == [BACKSLASH, 'U' as int] + Hex(c, 8)
  }

  /** A character is written as itself, as a letter or in hexadecimal. */
  lemma ReprForms(c: CodePoint, quote: CodePoint, printable: CodePoint -> bool)
    requires quote == QUOTE || quote == APOSTROPHE
    ensures var w := ReprChar(c, quote, printable);
      (w == [c] && c != quote && c != BACKSLASH && c != NEWLINE) || Letter(w, c) || HexForm(w, c)
  {
  }

  lemma LetterFormReads(w: Text, c: CodePoint, quote: CodePoint, tail: Text)
    requires Letter(w, c) && quote != BACKSLASH && ReadBody(tail, quote, false).Some?
    ensures var r := ReadBody(tail, quote, false).value; ReadBody(w + tail, quote, false) == Some(([c] + r.0, r.1))
  {
    LetterReads(w[1], c, tail);
    EscapeReads([w[1]], quote, [c], tail);
    assert w + tail == [BACKSLASH] + ([w[1]] + tail);
  }

  lemma HexFormReads(w: Text, c: CodePoint, quote: CodePoint, tail: Text)
    requires HexForm(w, c) && quote != BACKSLASH && ReadBody(tail, quote, false).Some?
    ensures var r := ReadBody(tail, quote, false).value; ReadBody(w + tail, quote, false) == Some(([c] + r.0, r.1))
  {
    HexReads(c, tail);
    var escape := [w[1]] + w[2..];
    assert ReadEscape(escape + tail) == Some(([c], tail));
    EscapeReads(escape, quote, [c], tail);
    assert w + tail == [BACKSLASH] + (escape + tail);
  }

  lemma ReprCharReads(c: CodePoint, quote: CodePoint, printable: CodePoint -> bool, tail: Text)
    requires quote == QUOTE || quote == APOSTROPHE
    requires ReadBody(tail, quote, false).Some?
    ensures var r := ReadBody(tail, quote, false).value;
      ReadBody(ReprChar(c, quote, printable) + tail, quote, false) == Some(([c] + r.0, r.1))
  {
    var w := ReprChar(c, quote, printable);
    ReprForms(c, quote, printable);
    if Letter(w, c) {
      LetterFormReads(w, c, quote, tail);
    } else if HexForm(w, c) {
      HexFormReads(w, c, quote, tail);
    } else {
      PlainReads(c, quote, tail);
    }
  }

  lemma {:induction false} ReprBodyReads(s: Text, quote: CodePoint, printable: CodePoint -> bool)
    requires quote == QUOTE || quote == APOSTROPHE
    ensures ReadBody(ReprBody(s, quote, printable) + [quote], quote, false) == Some((s, []))
  {
    if s == [] {
      assert ReprBody(s, quote, printable) + [quote] == [quote] && [quote][1..] == [];
    } else {
      ReprBodyReads(s[1..], quote, printable);
      var tail := ReprBody(s[1..], quote, printable) + [quote];
      ReprCharReads(s[0], quote, printable, tail);
      assert ReprBody(s, quote, printable) + [quote] == ReprChar(s[0], quote, printable) + tail;
      assert s == [s[0]] + s[1..];
    }
  }

  lemma {:induction false} HexClean(n: nat, digits: nat)
    ensures NoReturn(Hex(n, digits)) && QUOTE !in Hex(n, digits) && APOSTROPHE !in Hex(n, digits)
  {
    if digits > 0 {
      HexClean(n / 16, digits - 1);
    }
  }

  lemma ReprCharClean(c: CodePoint, quote: CodePoint, printable: CodePoint -> bool)
    requires quote == QUOTE || quote == APOSTROPHE
    ensures NoReturn(ReprChar(c, quote, printable))
  {
    HexClean(c, 2);
    HexClean(c, 4);
    HexClean(c, 8);
  }

  lemma {:induction false} ReprBodyClean(s: Text, quote: CodePoint, printable: CodePoint -> bool)
    requires quote == QUOTE || quote == APOSTROPHE
    ensures NoReturn(ReprBody(s, quote, printable))
  {
    if s != [] {
      ReprBodyClean(s[1..], quote, printable);
      ReprCharClean(s[0], quote, printable);
    }
  }

  /** A double-quoted repr never opens with three double quotes. */
  lemma ReprNotTriple(s: Text, printable: CodePoint -> bool)
    ensures !StartsTriple(Repr(s, printable))
  {
    if ReprQuote(s) == QUOTE {
      assert s != [] && s[0] != QUOTE;
      var w := ReprChar(s[0], QUOTE, printable);
      assert Repr(s, printable)[1] == w[0];
    }
  }

  lemma ReprReadsBack(s: Text, printable: CodePoint -> bool)
    ensures Evaluate(Repr(s, printable)) == Some(s) && NoReturn(Repr(s, printable))
  {
    var quote := ReprQuote(s);
    ReprBodyReads(s, quote, printable);
    ReprBodyClean(s, quote, printable);
    ReprNotTriple(s, printable);
    NormalizeClean(Repr(s, printable));
    assert Repr(s, printable)[1..] == ReprBody(s, quote, printable) + [quote];
  }

  // ----- the literal -----

  /** A carriage return is not printable. */
  predicate Sane(printable: CodePoint -> bool) {
    !printable(RETURN)
  }

  /** For multi-line printable text the triple-quoted form is written exactly when the text does
      not end in a run of quotes whose length is a multiple of three; the fallback is taken for
      the others. */
  lemma FallbackExactly(s: Text, printable: CodePoint -> bool)
    requires Sane(printable) && MultiLine(s, printable)
    ensures Literal(s, printable) ==
            if TrailingQuotes(s) == 0 || TrailingQuotes(s) % 3 != 0 then TripleQuoted(s) else Repr(s, printable)
  {
    TripleQuotedReadsBack(s);
  }

  /** Round trip: the literal of any text evaluates to the text, with either line ending and
      with or without a `u` prefix. */
  lemma LiteralReadsBack(s: Text, printable: CodePoint -> bool)
    requires Sane(printable)
    ensures var l := Literal(s, printable);
      && Evaluate(l) == Some(s) && Evaluate(ToCrlf(l)) == Some(s)
      && Evaluate(['u' as int] + l) == Some(s) && Evaluate(ToCrlf(['u' as int] + l)) == Some(s)
  {
    if MultiLine(s, printable) && Evaluate(TripleQuoted(s)) == Some(s) {
      CleanTriple(s);
      EvaluateClean(TripleQuoted(s));
    } else {
      ReprReadsBack(s, printable);
      EvaluateClean(Repr(s, printable));
    }
  }

  /** The shortest text for which the triple-quoted form fails: a newline and three quotes. */
  lemma FallbackIsTaken(printable: CodePoint -> bool)
    requires Sane(printable) && printable(QUOTE)
    ensures var s := [NEWLINE] + TRIPLE;
      MultiLine(s, printable) && Evaluate(TripleQuoted(s)).None? && Literal(s, printable) == Repr(s, printable)
  {
    var s := [NEWLINE] + TRIPLE;
    assert s[0] == NEWLINE;
    TrailingAppend([NEWLINE], TRIPLE);
    ThreeTrail();
    TripleQuotedReadsBack(s);
  }
}
