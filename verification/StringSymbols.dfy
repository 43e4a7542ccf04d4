/** Rewriting declared string constants of one source file.

    A file is a text with the spans of its declared constants in source order; what the
    parser found in a span is its value.  Only those spans are rewritten. */
module StringSymbols {
  import opened Options
  import opened Texts
  import opened PyLiterals

  /** `prefixed` is set when the constant has a `u` prefix. */
  datatype Span = Span(start: nat, end: nat, value: Text, prefixed: bool)

  predicate InOrder(spans: seq<Span>, from: nat, size: nat) {
    if spans == [] then from <= size
    else from <= spans[0].start && spans[0].start < spans[0].end && InOrder(spans[1..], spans[0].end, size)
  }

  lemma {:induction false} OrderReaches(spans: seq<Span>, from: nat, size: nat)
    requires InOrder(spans, from, size)
    ensures from <= size
    ensures spans != [] ==> spans[0].end <= size
  {
    if spans != [] {
      OrderReaches(spans[1..], spans[0].end, size);
    }
  }

  // ----- whitespace around a value -----

  function LStrip(s: Text, space: CodePoint -> bool): Text {
    if s != [] && space(s[0]) then LStrip(s[1..], space) else s
  }

  function RStrip(s: Text, space: CodePoint -> bool): Text {
    if s != [] && space(s[|s| - 1]) then RStrip(s[..|s| - 1], space) else s
  }

  function Strip(s: Text, space: CodePoint -> bool): Text {
    RStrip(LStrip(s, space), space)
  }

  predicate AllSpace(s: Text, space: CodePoint -> bool) {
    forall i :: 0 <= i < |s| ==> space(s[i])
  }

  lemma {:induction false} LStripCuts(s: Text, space: CodePoint -> bool)
    ensures |LStrip(s, space)| <= |s|
    ensures s[|s| - |LStrip(s, space)|..] == LStrip(s, space)
    ensures AllSpace(s[..|s| - |LStrip(s, space)|], space)
    ensures LStrip(s, space) != [] ==> !space(LStrip(s, space)[0])
  {
    if s != [] && space(s[0]) {
      LStripCuts(s[1..], space);
      var k := |s| - |LStrip(s, space)|;
      assert s[..k] == [s[0]] + s[1..][..k - 1];
    }
  }

  lemma {:induction false} RStripCuts(s: Text, space: CodePoint -> bool)
    ensures |RStrip(s, space)| <= |s|
    ensures s[..|RStrip(s, space)|] == RStrip(s, space)
    ensures AllSpace(s[|RStrip(s, space)|..], space)
    ensures RStrip(s, space) != [] ==> !space(RStrip(s, space)[|RStrip(s, space)| - 1])
  {
    var r := RStrip(s, space);
    if s != [] && space(s[|s| - 1]) {
      var shorter := s[..|s| - 1];
      RStripCuts(shorter, space);
      assert s[..|r|] == shorter[..|r|];
      assert s[|r|..] == shorter[|r|..] + [s[|s| - 1]];
    } else {
      assert s[..|r|] == s && s[|r|..] == [];
    }
  }

  /** Keep the base value's surrounding whitespace around a text. */
  function Reframe(base: Text, text: Text, space: CodePoint -> bool): Text {
    if Strip(base, space) == [] then base + text
    else
      LStripCuts(base, space);
      RStripCuts(base, space);
      base[..|base| - |LStrip(base, space)|] + (text + base[|RStrip(base, space)|..])
  }

  lemma {:induction false} LStripSkips(a: Text, s: Text, space: CodePoint -> bool)
    requires AllSpace(a, space)
    ensures LStrip(a + s, space) == LStrip(s, space)
  {
    if a == [] {
      assert a + s == s;
    } else {
      assert (a + s)[1..] == a[1..] + s;
      LStripSkips(a[1..], s, space);
    }
  }

  lemma {:induction false} RStripSkips(s: Text, b: Text, space: CodePoint -> bool)
    requires AllSpace(b, space)
    ensures RStrip(s + b, space) == RStrip(s, space)
    decreases |b|
  {
    if b == [] {
      assert s + b == s;
    } else {
      assert (s + b)[..|s + b| - 1] == s + b[..|b| - 1];
      RStripSkips(s, b[..|b| - 1], space);
    }
  }

  lemma StrippedIsFixed(text: Text, space: CodePoint -> bool)
    requires Strip(text, space) == text
    ensures LStrip(text, space) == text && RStrip(text, space) == text
    ensures text != [] ==> !space(text[0])
  {
    LStripCuts(text, space);
    RStripCuts(LStrip(text, space), space);
    assert text == text[0..];
  }

  /** Whitespace around a stripped text strips away. */
  lemma StripFramed(a: Text, text: Text, b: Text, space: CodePoint -> bool)
    requires AllSpace(a, space) && AllSpace(b, space) && Strip(text, space) == text
    ensures Strip(a + (text + b), space) == text
  {
    LStripSkips(a, text + b, space);
    StrippedIsFixed(text, space);
    if text == [] {
      assert text + b == b && b + [] == b;
      LStripSkips(b, [], space);
    } else {
      assert (text + b)[0] == text[0];
      RStripSkips(text, b, space);
    }
  }

  lemma StrippedAwayIsSpace(s: Text, space: CodePoint -> bool)
    requires Strip(s, space) == []
    ensures AllSpace(s, space)
  {
    LStripCuts(s, space);
    var l := LStrip(s, space);
    RStripCuts(l, space);
    if l == [] {
      assert s[..|s|] == s;
    } else {
      assert false;
    }
  }

  /** Reframing a stripped text and stripping again gives the text. */
  lemma ReframeStrips(base: Text, text: Text, space: CodePoint -> bool)
    requires Strip(text, space) == text
    ensures Strip(Reframe(base, text, space), space) == text
  {
    if Strip(base, space) == [] {
      StrippedAwayIsSpace(base, space);
      StripFramed(base, text, [], space);
      assert text + [] == text;
    } else {
      LStripCuts(base, space);
      RStripCuts(base, space);
      StripFramed(base[..|base| - |LStrip(base, space)|], text, base[|RStrip(base, space)|..], space);
    }
  }

  /** A text is some whitespace, a part with none at its ends, and some whitespace. */
  ghost predicate Frames(base: Text, lead: Text, core: Text, trail: Text, space: CodePoint -> bool) {
    && base == lead + (core + trail) && AllSpace(lead, space) && AllSpace(trail, space)
    && (core == [] ==> trail == [])
    && (core != [] ==> !space(core[0]) && !space(core[|core| - 1]))
  }

  lemma FrameOf(base: Text, space: CodePoint -> bool) returns (lead: Text, core: Text, trail: Text)
    ensures Frames(base, lead, core, trail, space)
  {
    LStripCuts(base, space);
    var l := LStrip(base, space);
    RStripCuts(l, space);
    core := RStrip(l, space);
    lead, trail := base[..|base| - |l|], l[|core|..];
    assert l == core + trail && base == lead + l;
  }

  lemma FrameStrips(base: Text, lead: Text, core: Text, trail: Text, space: CodePoint -> bool)
    requires Frames(base, lead, core, trail, space)
    ensures LStrip(base, space) == core + trail && RStrip(base, space) == (if core == [] then [] else lead + core)
    ensures Strip(base, space) == core
  {
    LStripSkips(lead, core + trail, space);
    RStripSkips(core, trail, space);
    if core == [] {
      assert core + trail == [] && base == [] + lead;
      RStripSkips([], lead, space);
    } else {
      assert base == (lead + core) + trail;
      RStripSkips(lead + core, trail, space);
    }
  }

  /** However a base value is framed by whitespace, a new text takes the place of what is framed
      and nothing else changes. A blank base goes before the text. */
  lemma ReframeKeepsFraming(base: Text, lead: Text, core: Text, trail: Text, text: Text, space: CodePoint -> bool)
    requires Frames(base, lead, core, trail, space)
    ensures Strip(base, space) == core
    ensures Reframe(base, text, space) == lead + (text + trail)
  {
    FrameStrips(base, lead, core, trail, space);
    if core != [] {
      assert base[..|lead|] == lead && base[|lead + core|..] == trail;
    } else {
      assert text + trail == text && base == lead;
    }
  }

  lemma StripTwice(s: Text, space: CodePoint -> bool)
    ensures Strip(Strip(s, space), space) == Strip(s, space)
  {
    var l := LStrip(s, space);
    LStripCuts(s, space);
    RStripCuts(l, space);
    var t := RStrip(l, space);
    assert LStrip(t, space) == t;
    assert RStrip(t, space) == t;
  }

  // ----- planning the edits of one file -----

  /** What a rewrite depends on besides the file. */
  datatype Setting = Setting(printable: CodePoint -> bool, space: CodePoint -> bool)

  function HasCrlf(source: Text): bool {
    exists i :: 0 <= i < |source| - 1 && source[i] == RETURN && source[i + 1] == NEWLINE
  }

  /** The literal that replaces a span, or None to keep its bytes. */
  function Replacement(span: Span, component: Option<Text>, crlf: bool, c: Setting): Option<Text> {
    if component.None? then None
    else
      var text := Strip(component.value, c.space);
      if text == Strip(span.value, c.space) then None
      else
        var literal := (if span.prefixed then ['u' as int] else [])
                       + Literal(Reframe(span.value, text, c.space), c.printable);
        Some(if crlf then ToCrlf(literal) else literal)
  }

  /** What a declared constant must read back as, stripped. */
  function Expected(span: Span, component: Option<Text>, c: Setting): Text {
    if component.None? then Strip(span.value, c.space) else Strip(component.value, c.space)
  }

  /** The new bytes of each span. */
  function Tokens(source: Text, spans: seq<Span>, edits: seq<Option<Text>>, from: nat): (r: seq<Text>)
    requires |edits| == |spans| && InOrder(spans, from, |source|)
    ensures |r| == |spans|
  {
    if spans == [] then []
    else
      OrderReaches(spans, from, |source|);
      [if edits[0].Some? then edits[0].value else source[spans[0].start..spans[0].end]]
      + Tokens(source, spans[1..], edits[1..], spans[0].end)
  }

  /** The pieces between the spans, from a cursor on. */
  function Outside(source: Text, spans: seq<Span>, from: nat): (r: seq<Text>)
    requires InOrder(spans, from, |source|)
    ensures |r| == |spans| + 1
  {
    OrderReaches(spans, from, |source|);
    if spans == [] then [source[from..]]
    else [source[from..spans[0].start]] + Outside(source, spans[1..], spans[0].end)
  }

  /** Simultaneous substitution: the same pieces around the new tokens. */
  function Substitute(pieces: seq<Text>, tokens: seq<Text>): Text
    requires |pieces| == |tokens| + 1
  {
    if tokens == [] then pieces[0] else pieces[0] + (tokens[0] + Substitute(pieces[1..], tokens[1..]))
  }

  /** Where each token lies in the rewritten file. */
  function Shifted(pieces: seq<Text>, tokens: seq<Text>, spans: seq<Span>, at: nat): (r: seq<Span>)
    requires |pieces| == |tokens| + 1 && |spans| == |tokens|
    ensures |r| == |tokens|
  {
    if tokens == [] then []
    else
      var start := at + |pieces[0]|;
      var end := start + |tokens[0]|;
      [spans[0].(start := start, end := end)] + Shifted(pieces[1..], tokens[1..], spans[1..], end)
  }

  /** Cut the outside pieces with a moving cursor. */
  method OutsidePieces(source: Text, spans: seq<Span>) returns (pieces: seq<Text>)
    requires InOrder(spans, 0, |source|)
    ensures pieces == Outside(source, spans, 0)
  {
    pieces := [];
    var cursor: nat := 0;
    var i := 0;
    while i < |spans|
      invariant 0 <= i <= |spans| && cursor <= |source|
      invariant InOrder(spans[i..], cursor, |source|)
      invariant pieces + Outside(source, spans[i..], cursor) == Outside(source, spans, 0)
    {
      OrderReaches(spans[i..], cursor, |source|);
      assert spans[i..][0] == spans[i] && spans[i..][1..] == spans[i + 1..];
      pieces := pieces + [source[cursor..spans[i].start]];
      cursor := spans[i].end;
      i := i + 1;
    }
    pieces := pieces + [source[cursor..]];
  }

  lemma {:induction false} OrderSuffix(spans: seq<Span>, from: nat, size: nat, i: nat)
    requires InOrder(spans, from, size) && i < |spans|
    ensures InOrder(spans[i..], if i == 0 then from else spans[i - 1].end, size)
    ensures InOrder(spans[i + 1..], spans[i].end, size)
    ensures (if i == 0 then from else spans[i - 1].end) <= spans[i].start < spans[i].end <= size
  {
    OrderReaches(spans, from, size);
    if i == 0 {
      assert spans[0..] == spans;
    } else {
      OrderSuffix(spans[1..], spans[0].end, size, i - 1);
      assert spans[1..][i - 1..] == spans[i..] && spans[1..][i..] == spans[i + 1..];
    }
  }

  function CutAt(spans: seq<Span>, i: nat): nat
    requires i <= |spans|
  {
    if i == 0 then 0 else spans[i - 1].end
  }

  /** One splice, with everything after the span rewritten already. */
  lemma SpliceOne(source: Text, current: Text, from: nat, span: Span, token: Text, rest: Text)
    requires from <= span.start < span.end <= |source|
    requires current == source[..span.end] + rest
    ensures current[..span.start] + token + current[span.end..]
            == source[..from] + (source[from..span.start] + (token + rest))
    ensures current == source[..from] + (source[from..span.start] + (source[span.start..span.end] + rest))
  {
    assert current[..span.start] == source[..from] + source[from..span.start];
    assert current[span.end..] == rest;
    assert source[..span.end] == source[..from] + (source[from..span.start] + source[span.start..span.end]);
  }

  lemma SpansFit(spans: seq<Span>, size: nat, i: nat)
    requires InOrder(spans, 0, size) && i <= |spans|
    ensures InOrder(spans[i..], CutAt(spans, i), size)
  {
    if i < |spans| {
      OrderSuffix(spans, 0, size, i);
    } else if i > 0 {
      OrderSuffix(spans, 0, size, i - 1);
    }
  }

  /** Splice the literals in from right to left, so earlier spans keep their positions. */
  method Splice(source: Text, spans: seq<Span>, edits: seq<Option<Text>>) returns (result: Text)
    requires |edits| == |spans| && InOrder(spans, 0, |source|)
    ensures result == Substitute(Outside(source, spans, 0), Tokens(source, spans, edits, 0))
  {
    result := source;
    var i := |spans|;
    SpansFit(spans, |source|, i);
    OrderReaches(spans[i..], CutAt(spans, i), |source|);
    while i > 0
      invariant 0 <= i <= |spans|
      invariant CutAt(spans, i) <= |source| && InOrder(spans[i..], CutAt(spans, i), |source|)
      invariant result == source[..CutAt(spans, i)] + Rest(source, spans[i..], edits[i..], CutAt(spans, i))
    {
      i := i - 1;
      var span := spans[i];
      ghost var from := CutAt(spans, i);
      SpansFit(spans, |source|, i);
      OrderSuffix(spans, 0, |source|, i);
      assert spans[i..][1..] == spans[i + 1..] && edits[i..][1..] == edits[i + 1..];
      RestStep(source, spans[i..], edits[i..], from);
      ghost var rest := Rest(source, spans[i + 1..], edits[i + 1..], span.end);
      SpliceOne(source, result, from, span,
                if edits[i].Some? then edits[i].value else source[span.start..span.end], rest);
      if edits[i].Some? {
        result := result[..span.start] + edits[i].value + result[span.end..];
      }
    }
    assert spans[0..] == spans && edits[0..] == edits;
  }

  /** The rewritten file from a cursor on. */
  ghost function Rest(source: Text, spans: seq<Span>, edits: seq<Option<Text>>, from: nat): Text
    requires |edits| == |spans| && InOrder(spans, from, |source|)
  {
    Substitute(Outside(source, spans, from), Tokens(source, spans, edits, from))
  }

  lemma RestStep(source: Text, spans: seq<Span>, edits: seq<Option<Text>>, from: nat)
    requires |edits| == |spans| && InOrder(spans, from, |source|) && spans != []
    ensures spans[0].end <= |source|
    ensures Rest(source, spans, edits, from) ==
            source[from..spans[0].start]
            + ((if edits[0].Some? then edits[0].value else source[spans[0].start..spans[0].end])
               + Rest(source, spans[1..], edits[1..], spans[0].end))
  {
    OrderReaches(spans, from, |source|);
    var pieces, tokens := Outside(source, spans, from), Tokens(source, spans, edits, from);
    assert pieces[1..] == Outside(source, spans[1..], spans[0].end);
    assert tokens[1..] == Tokens(source, spans[1..], edits[1..], spans[0].end);
  }

  // ----- the rewritten file -----

  lemma FrontReads(before: Text, piece: Text, token: Text, rest: Text)
    ensures var text := before + piece + token + rest;
      && text[|before|..|before| + |piece|] == piece
      && text[|before| + |piece|..|before| + |piece| + |token|] == token
      && text == before + (piece + (token + rest))
  {
  }

  /** Reading at the shifted spans gives back the pieces and the tokens. */
  lemma {:induction false} ShiftedReads(before: Text, pieces: seq<Text>, tokens: seq<Text>, spans: seq<Span>)
    requires |pieces| == |tokens| + 1 && |spans| == |tokens|
    requires forall i :: 0 <= i < |tokens| ==> tokens[i] != []
    ensures var text := before + Substitute(pieces, tokens);
      var shifted := Shifted(pieces, tokens, spans, |before|);
      && InOrder(shifted, |before|, |text|)
      && Outside(text, shifted, |before|) == pieces
      && forall i :: 0 <= i < |shifted| ==>
           shifted[i].start <= shifted[i].end <= |text| && text[shifted[i].start..shifted[i].end] == tokens[i]
    decreases |tokens|
  {
    var text := before + Substitute(pieces, tokens);
    if tokens == [] {
      assert text[|before|..] == pieces[0];
    } else {
      var head := before + pieces[0] + tokens[0];
      assert text == head + Substitute(pieces[1..], tokens[1..]);
      ShiftedReads(head, pieces[1..], tokens[1..], spans[1..]);
      var shifted := Shifted(pieces, tokens, spans, |before|);
      assert shifted[1..] == Shifted(pieces[1..], tokens[1..], spans[1..], |head|);
      FrontReads(before, pieces[0], tokens[0], Substitute(pieces[1..], tokens[1..]));
      forall i | 0 <= i < |shifted|
        ensures shifted[i].start <= shifted[i].end <= |text| && text[shifted[i].start..shifted[i].end] == tokens[i]
      {
        if i > 0 {
          assert shifted[i] == shifted[1..][i - 1] && tokens[i] == tokens[1..][i - 1];
        }
      }
    }
  }

  /** The replacements of a whole file. */
  function Edits(spans: seq<Span>, components: seq<Option<Text>>, crlf: bool, c: Setting): (r: seq<Option<Text>>)
    requires |components| == |spans|
    ensures |r| == |spans| && forall i :: 0 <= i < |spans| ==> r[i] == Replacement(spans[i], components[i], crlf, c)
  {
    if spans == [] then []
    else [Replacement(spans[0], components[0], crlf, c)] + Edits(spans[1..], components[1..], crlf, c)
  }

  lemma {:induction false} TokenAt(source: Text, spans: seq<Span>, edits: seq<Option<Text>>, from: nat, i: nat)
    requires |edits| == |spans| && InOrder(spans, from, |source|) && i < |spans|
    ensures spans[i].start < spans[i].end <= |source|
    ensures Tokens(source, spans, edits, from)[i] ==
            if edits[i].Some? then edits[i].value else source[spans[i].start..spans[i].end]
  {
    OrderReaches(spans, from, |source|);
    if i > 0 {
      TokenAt(source, spans[1..], edits[1..], spans[0].end, i - 1);
    }
  }

  /** A replacement reads back, stripped, as the candidate's text. */
  lemma ReplacementReads(span: Span, component: Option<Text>, crlf: bool, c: Setting)
    requires Sane(c.printable) && Replacement(span, component, crlf, c).Some?
    ensures var r := Replacement(span, component, crlf, c).value;
      r != [] && Evaluate(r).Some? && Strip(Evaluate(r).value, c.space) == Expected(span, component, c)
  {
    var text := Strip(component.value, c.space);
    StripTwice(component.value, c.space);
    ReframeStrips(span.value, text, c.space);
    LiteralReadsBack(Reframe(span.value, text, c.space), c.printable);
    var l := Literal(Reframe(span.value, text, c.space), c.printable);
    assert [] + l == l;
  }

  /** Every newline is half of a CRLF, and so is every carriage return. */
  ghost predicate CrlfOnly(s: Text) {
    forall i :: 0 <= i < |s| ==> PairedAt(s, i)
  }

  ghost predicate PairedAt(s: Text, i: nat)
    requires i < |s|
  {
    && (s[i] == NEWLINE ==> i > 0 && s[i - 1] == RETURN)
    && (s[i] == RETURN ==> i + 1 < |s| && s[i + 1] == NEWLINE)
  }

  lemma CrlfAdds(a: Text, b: Text)
    requires CrlfOnly(a) && CrlfOnly(b)
    ensures CrlfOnly(a + b)
  {
    forall i | 0 <= i < |a + b| ensures PairedAt(a + b, i) {
      if i < |a| {
        assert PairedAt(a, i);
      } else {
        assert PairedAt(b, i - |a|);
      }
    }
  }

  lemma {:induction false} ToCrlfPairs(s: Text)
    requires NoReturn(s)
    ensures CrlfOnly(ToCrlf(s))
  {
    if s != [] {
      assert NoReturn(s[1..]);
      ToCrlfPairs(s[1..]);
      CrlfAdds(if s[0] == NEWLINE then [RETURN, NEWLINE] else [s[0]], ToCrlf(s[1..]));
    }
  }

  /** A CRLF follows the first characters `lead`. */
  ghost predicate CrlfAfter(source: Text, lead: Text) {
    lead + [RETURN, NEWLINE] <= source
  }

  lemma CrlfFound(source: Text)
    ensures HasCrlf(source) <==> exists lead :: CrlfAfter(source, lead)
  {
    if HasCrlf(source) {
      var i :| 0 <= i < |source| - 1 && source[i] == RETURN && source[i + 1] == NEWLINE;
      assert source[..i] + [RETURN, NEWLINE] == source[..i + 2];
      assert CrlfAfter(source, source[..i]);
    }
    if lead :| CrlfAfter(source, lead) {
      var both := lead + [RETURN, NEWLINE];
      assert source[|lead|] == both[|lead|] && source[|lead| + 1] == both[|lead| + 1];
    }
  }

  lemma LiteralStyle(s: Text, printable: CodePoint -> bool)
    requires Sane(printable)
    ensures var l := Literal(s, printable);
      l != [] && (l[0] == QUOTE || l[0] == APOSTROPHE) && NoReturn(l)
  {
    if MultiLine(s, printable) && Evaluate(TripleQuoted(s)) == Some(s) {
      CleanTriple(s);
    } else {
      ReprReadsBack(s, printable);
    }
  }

  /** A constant is rewritten exactly when its stripped text changes; its literal keeps the `u`
      prefix and follows the file's line endings. */
  lemma ReplacementKeepsStyle(source: Text, span: Span, component: Option<Text>, c: Setting)
    requires Sane(c.printable)
    ensures var crlf := exists lead :: CrlfAfter(source, lead);
      var r := Replacement(span, component, HasCrlf(source), c);
      && (r.None? <==> component.None? || Strip(component.value, c.space) == Strip(span.value, c.space))
      && (r.Some? ==>
            && r.value != [] && (r.value[0] == 'u' as int <==> span.prefixed)
            && (if crlf then CrlfOnly(r.value) else NoReturn(r.value)))
  {
    CrlfFound(source);
    if component.Some? && Strip(component.value, c.space) != Strip(span.value, c.space) {
      var text := Reframe(span.value, Strip(component.value, c.space), c.space);
      var l := (if span.prefixed then ['u' as int] else []) + Literal(text, c.printable);
      LiteralStyle(text, c.printable);
      assert NoReturn(l);
      ToCrlfPairs(l);
    }
  }

  /** The loop of `PlanEdits`, for any way to plan one edit. */
  method PlanEach(spans: seq<Span>, components: seq<Option<Text>>, plan: (Span, Option<Text>) -> Option<Text>)
    returns (edits: seq<Option<Text>>, changed: bool)
    requires |components| == |spans|
    ensures |edits| == |spans| && forall i :: 0 <= i < |spans| ==> edits[i] == plan(spans[i], components[i])
    ensures changed <==> exists i :: 0 <= i < |edits| && edits[i].Some?
  {
    edits, changed := [], false;
    var i := 0;
    while i < |spans|
      invariant 0 <= i <= |spans| && |edits| == i
      invariant forall j :: 0 <= j < i ==> edits[j] == plan(spans[j], components[j])
      invariant changed <==> exists j :: 0 <= j < i && edits[j].Some?
    {
      var edit := plan(spans[i], components[i]);
      changed := changed || edit.Some?;
      edits := edits + [edit];
      i := i + 1;
    }
  }

  /** Plan an edit for each declared constant. */
  method PlanEdits(spans: seq<Span>, components: seq<Option<Text>>, crlf: bool, c: Setting)
    returns (edits: seq<Option<Text>>, changed: bool)
    requires |components| == |spans|
    ensures |edits| == |spans| && forall i :: 0 <= i < |spans| ==> edits[i] == Replacement(spans[i], components[i], crlf, c)
    ensures changed <==> exists i :: 0 <= i < |edits| && edits[i].Some?
  {
    edits, changed := PlanEach(spans, components, (span, component) => Replacement(span, component, crlf, c));
  }

  /** Rewrite one file: plan an edit for each declared constant, then splice. */
  method RewriteFile(source: Text, spans: seq<Span>, components: seq<Option<Text>>, c: Setting)
    returns (result: Text, changed: bool)
    requires |components| == |spans| && InOrder(spans, 0, |source|)
    ensures var edits := Edits(spans, components, HasCrlf(source), c);
      && result == Substitute(Outside(source, spans, 0), Tokens(source, spans, edits, 0))
      && (changed <==> exists i :: 0 <= i < |edits| && edits[i].Some?)
  {
    var crlf := HasCrlf(source);
    var edits;
    edits, changed := PlanEdits(spans, components, crlf, c);
    assert edits == Edits(spans, components, crlf, c);
    result := Splice(source, spans, edits);
  }

  /** Rewrite then read back.  At the shifted spans the rewritten file has the original bytes
      outside the constants; every constant without a replacement keeps its bytes and is what
      it must be already, and every other evaluates to its expected text, stripped. */
  lemma RewriteReadsBack(source: Text, spans: seq<Span>, components: seq<Option<Text>>, c: Setting)
    requires |components| == |spans| && InOrder(spans, 0, |source|) && Sane(c.printable)
    ensures var edits := Edits(spans, components, HasCrlf(source), c);
      var pieces := Outside(source, spans, 0);
      var tokens := Tokens(source, spans, edits, 0);
      var result := Substitute(pieces, tokens);
      var shifted := Shifted(pieces, tokens, spans, 0);
      && InOrder(shifted, 0, |result|)
      && Outside(result, shifted, 0) == pieces
      && forall i :: 0 <= i < |spans| ==>
           && spans[i].start <= spans[i].end <= |source|
           && shifted[i].start <= shifted[i].end <= |result|
           && var now := result[shifted[i].start..shifted[i].end];
              if edits[i].Some?
              then Evaluate(now).Some? && Strip(Evaluate(now).value, c.space) == Expected(spans[i], components[i], c)
              else now == source[spans[i].start..spans[i].end]
                   && Strip(spans[i].value, c.space) == Expected(spans[i], components[i], c)
  {
    var edits := Edits(spans, components, HasCrlf(source), c);
    var pieces := Outside(source, spans, 0);
    var tokens := Tokens(source, spans, edits, 0);
    forall i | 0 <= i < |spans|
      ensures spans[i].start < spans[i].end <= |source|
      ensures tokens[i] != []
      ensures tokens[i] == if edits[i].Some? then edits[i].value else source[spans[i].start..spans[i].end]
      ensures edits[i].Some? ==> Evaluate(tokens[i]).Some?
                                 && Strip(Evaluate(tokens[i]).value, c.space) == Expected(spans[i], components[i], c)
      ensures edits[i].None? ==> Strip(spans[i].value, c.space) == Expected(spans[i], components[i], c)
    {
      TokenAt(source, spans, edits, 0, i);
      if edits[i].Some? {
        ReplacementReads(spans[i], components[i], HasCrlf(source), c);
      }
    }
    ShiftedReads([], pieces, tokens, spans);
    assert [] + Substitute(pieces, tokens) == Substitute(pieces, tokens);
  }

  lemma CutInThree(source: Text, a: nat, b: nat, c: nat)
    requires a <= b <= c <= |source|
    ensures source[a..] == source[a..b] + (source[b..c] + source[c..])
  {
  }

  /** Without a replacement no byte changes. */
  lemma {:induction false} NoEditKeepsFile(source: Text, spans: seq<Span>, edits: seq<Option<Text>>, from: nat)
    requires |edits| == |spans| && InOrder(spans, from, |source|)
    requires forall i :: 0 <= i < |edits| ==> edits[i].None?
    ensures from <= |source|
    ensures Rest(source, spans, edits, from) == source[from..]
  {
    OrderReaches(spans, from, |source|);
    if spans != [] {
      var span := spans[0];
      RestStep(source, spans, edits, from);
      assert forall i :: 0 <= i < |edits[1..]| ==> edits[1..][i] == edits[i + 1];
      NoEditKeepsFile(source, spans[1..], edits[1..], span.end);
      CutInThree(source, from, span.start, span.end);
    }
  }
}
