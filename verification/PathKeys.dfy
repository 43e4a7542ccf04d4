/** Component keys of schema paths: a printer that is injective on ordinary names. */
module PathKeys {
  import opened Schemas
  import J = JsonText

  /** Options are only yielded beneath a field, so a path never starts with a position. */
  predicate Printable(path: Path) {
    path != [] ==> path[0].Name?
  }

  function Front(path: Path): Path
    requires path != []
  {
    path[..|path| - 1]
  }

  function Last(path: Path): Step
    requires path != []
  {
    path[|path| - 1]
  }

  /** The text of a path, step by step. */
  function Format(path: Path): string
    requires Printable(path)
    decreases |path|
  {
    if path == [] then ""
    else
      match Last(path)
      case Position(k) => Format(Front(path)) + ("@" + J.Digits(k))
      case Name(name) =>
        if name == "[]" then Format(Front(path)) + "[]"
        else if |path| == 1 then name
        else Format(Front(path)) + ("." + name)
  }

  function JoinDots(parts: seq<string>): string {
    if parts == [] then "" else if |parts| == 1 then parts[0] else JoinDots(parts[..|parts| - 1]) + ("." + parts[|parts| - 1])
  }

  lemma JoinAppends(parts: seq<string>, text: string)
    requires parts != []
    ensures JoinDots(parts[|parts| - 1 := parts[|parts| - 1] + text]) == JoinDots(parts) + text
    ensures JoinDots(parts + [text]) == JoinDots(parts) + ("." + text)
  {
    var n := |parts| - 1;
    assert parts[n := parts[n] + text][..n] == parts[..n];
    assert (parts + [text])[..|parts|] == parts;
    if |parts| > 1 {
      assert JoinDots(parts[..n]) + ("." + (parts[n] + text)) == (JoinDots(parts[..n]) + ("." + parts[n])) + text;
    }
  }

  /** The printer as a loop over segments, extending the last part in place. */
  method FormatPath(path: Path) returns (text: string)
    requires Printable(path)
    ensures text == Format(path)
  {
    var formatted: seq<string> := [];
    var i := 0;
    while i < |path|
      invariant 0 <= i <= |path|
      invariant Printable(path[..i])
      invariant formatted == [] <==> i == 0
      invariant JoinDots(formatted) == Format(path[..i])
    {
      var segment := path[i];
      assert path[..i + 1] == path[..i] + [segment];
      assert Front(path[..i + 1]) == path[..i];
      var last := |formatted| - 1;
      match segment {
        case Position(k) =>
          JoinAppends(formatted, "@" + J.Digits(k));
          formatted := formatted[last := formatted[last] + ("@" + J.Digits(k))];
        case Name(name) =>
          if name == "[]" {
            if formatted == [] {
              formatted := ["[]"];
            } else {
              JoinAppends(formatted, "[]");
              formatted := formatted[last := formatted[last] + "[]"];
            }
          } else {
            if formatted != [] {
              JoinAppends(formatted, name);
            }
            formatted := formatted + [name];
          }
      }
      i := i + 1;
    }
    assert path[..i] == path;
    text := JoinDots(formatted);
  }

  function Namespace(path: Path): string {
    if path != [] && Last(path).Position? then "option" else "param"
  }

  function PathKey(kind: string, tool: string, path: Path): string
    requires Printable(path)
  {
    kind + ":" + tool + ":" + (Namespace(path) + (":" + Format(path)))
  }

  // ----- ordinary names -----

  predicate NoBrackets(name: string) {
    forall i :: 0 <= i < |name| - 1 ==> !(name[i] == '[' && name[i + 1] == ']')
  }

  /** Not empty, and neither a dot nor "[]" inside. */
  predicate Ordinary(name: string) {
    name != "" && '.' !in name && NoBrackets(name)
  }

  /** Every name is ordinary or the items step; a position can only come last. */
  predicate OrdinaryPath(path: Path) {
    && Printable(path)
    && (forall i :: 0 <= i < |path| && path[i].Name? ==> path[i] == ITEMS || Ordinary(path[i].name))
    && (forall i :: 0 <= i < |path| - 1 ==> path[i].Name?)
  }

  predicate EndsInItems(text: string) {
    |text| >= 2 && text[|text| - 2] == '[' && text[|text| - 1] == ']'
  }

  lemma FrontOrdinary(path: Path)
    requires OrdinaryPath(path) && path != []
    ensures OrdinaryPath(Front(path))
  {
  }

  /** The last step shows in the text. */
  lemma LastShows(path: Path)
    requires OrdinaryPath(path) && path != [] && Last(path).Name?
    ensures Format(path) != ""
    ensures EndsInItems(Format(path)) <==> Last(path) == ITEMS
    ensures Last(path) == ITEMS ==> Format(path) == Format(Front(path)) + "[]"
  {
    var name := Last(path).name;
    if name != "[]" && |path| > 1 {
      var f := Format(path);
      assert f == Format(Front(path)) + ("." + name);
      assert f[|f| - 1] == name[|name| - 1];
      assert f[|f| - 2] == if |name| == 1 then '.' else name[|name| - 2];
    }
  }

  /** Texts split at their last dot in one way. */
  lemma SplitAtLast(a: string, x: string, b: string, y: string, mark: char)
    requires a + ([mark] + x) == b + ([mark] + y)
    requires mark !in x && mark !in y
    ensures a == b && x == y
  {
    var s := a + ([mark] + x);
    MarkIsLast(a, x, mark);
    MarkIsLast(b, y, mark);
    assert |a| == |b|;
    assert s[..|a|] == a && s[..|b|] == b;
    assert s[|a| + 1..] == x && s[|b| + 1..] == y;
  }

  lemma MarkIsLast(a: string, x: string, mark: char)
    requires mark !in x
    ensures var s := a + ([mark] + x); s[|a|] == mark && forall k :: |a| < k < |s| ==> s[k] != mark
  {
    var s := a + ([mark] + x);
    assert forall k :: |a| < k < |s| ==> s[k] == x[k - |a| - 1];
  }

  lemma {:induction false} NameFormatInjective(p: Path, q: Path)
    requires OrdinaryPath(p) && OrdinaryPath(q)
    requires p != [] ==> Last(p).Name?
    requires q != [] ==> Last(q).Name?
    requires Format(p) == Format(q)
    ensures p == q
    decreases |p|
  {
    if p == [] || q == [] {
      EmptyFormat(p);
      EmptyFormat(q);
    } else {
      LastSplits(p, q);
      FrontOrdinary(p);
      FrontOrdinary(q);
      NameFormatInjective(Front(p), Front(q));
      FrontAndLast(p, q);
    }
  }

  lemma FrontAndLast(p: Path, q: Path)
    requires p != [] && q != [] && Front(p) == Front(q) && Last(p) == Last(q)
    ensures p == q
  {
    assert p == Front(p) + [Last(p)] && q == Front(q) + [Last(q)];
  }

  lemma EmptyFormat(path: Path)
    requires OrdinaryPath(path) && (path != [] ==> Last(path).Name?)
    ensures Format(path) == "" <==> path == []
  {
    if path != [] {
      LastShows(path);
    }
  }

  /** Equal texts have the same last name and the same text before it. */
  lemma LastSplits(p: Path, q: Path)
    requires OrdinaryPath(p) && OrdinaryPath(q) && p != [] && q != []
    requires Last(p).Name? && Last(q).Name? && Format(p) == Format(q)
    ensures Format(Front(p)) == Format(Front(q)) && Last(p) == Last(q)
  {
    LastShows(p);
    LastShows(q);
    if Last(p) == ITEMS {
      DropSuffix(Format(Front(p)), Format(Front(q)), "[]");
    } else {
      NamesSplit(p, q);
    }
  }

  lemma DropSuffix(a: string, b: string, suffix: string)
    requires a + suffix == b + suffix
    ensures a == b
  {
    assert (a + suffix)[..|a|] == a && (b + suffix)[..|b|] == b;
  }

  lemma NamesSplit(p: Path, q: Path)
    requires OrdinaryPath(p) && OrdinaryPath(q) && p != [] && q != []
    requires Last(p).Name? && Last(q).Name? && Last(p) != ITEMS && Last(q) != ITEMS
    requires Format(p) == Format(q)
    ensures Format(Front(p)) == Format(Front(q)) && Last(p) == Last(q)
  {
    DotShows(p);
    DotShows(q);
    if |p| > 1 {
      SplitAtLast(Format(Front(p)), Last(p).name, Format(Front(q)), Last(q).name, '.');
    }
  }

  /** A dot shows that a name has something before it. */
  lemma DotShows(path: Path)
    requires OrdinaryPath(path) && path != [] && Last(path).Name? && Last(path) != ITEMS
    ensures '.' in Format(path) <==> |path| > 1
    ensures |path| == 1 ==> Format(path) == Last(path).name && Format(Front(path)) == ""
  {
    if |path| > 1 {
      assert Format(path)[|Format(Front(path))|] == '.';
    }
  }

  lemma {:induction false} DigitsPlain(n: nat)
    ensures '@' !in J.Digits(n)
  {
    if n >= 10 {
      DigitsPlain(n / 10);
    }
  }

  lemma DigitsInjective(m: nat, n: nat)
    requires J.Digits(m) == J.Digits(n)
    ensures m == n
  {
    J.DigitsRead(m, "");
    J.DigitsRead(n, "");
    assert J.Digits(m) + "" == J.Digits(n) + "";
  }

  lemma FormatInjective(p: Path, q: Path)
    requires OrdinaryPath(p) && OrdinaryPath(q)
    requires Namespace(p) == Namespace(q) && Format(p) == Format(q)
    ensures p == q
  {
    if p != [] && Last(p).Position? {
      DigitsPlain(Last(p).index);
      DigitsPlain(Last(q).index);
      SplitAtLast(Format(Front(p)), J.Digits(Last(p).index), Format(Front(q)), J.Digits(Last(q).index), '@');
      DigitsInjective(Last(p).index, Last(q).index);
      FrontOrdinary(p);
      FrontOrdinary(q);
      NameFormatInjective(Front(p), Front(q));
      FrontAndLast(p, q);
    } else {
      NameFormatInjective(p, q);
    }
  }

  lemma KeyParts(head: string, a: string, x: string, b: string, y: string)
    requires a == "option" || a == "param"
    requires b == "option" || b == "param"
    requires head + (a + (":" + x)) == head + (b + (":" + y))
    ensures a == b && x == y
  {
    var s := head + (a + (":" + x));
    assert s[|head|] == a[0] && s[|head|] == b[0];
    assert s[|head| + |a| + 1..] == x && s[|head| + |b| + 1..] == y;
  }

  /** A key names one path: for one tool and kind, keys of paths with ordinary names are equal
      only for equal paths. */
  lemma KeysInjective(kind: string, tool: string, p: Path, q: Path)
    requires OrdinaryPath(p) && OrdinaryPath(q)
    requires PathKey(kind, tool, p) == PathKey(kind, tool, q)
    ensures p == q
  {
    KeyParts(kind + ":" + tool + ":", Namespace(p), Format(p), Namespace(q), Format(q));
    FormatInjective(p, q);
  }

  /** With any names at all, the key of an option is never the key of a property. */
  lemma OptionKeysApart(kind: string, tool: string, p: Path, q: Path)
    requires Printable(p) && Printable(q) && p != [] && Last(p).Position? && (q == [] || Last(q).Name?)
    ensures PathKey(kind, tool, p) != PathKey(kind, tool, q)
  {
    if PathKey(kind, tool, p) == PathKey(kind, tool, q) {
      KeyParts(kind + ":" + tool + ":", Namespace(p), Format(p), Namespace(q), Format(q));
    }
  }

  /** A dot in a name breaks it: a property "a.b" and a property "b" of "a" share a key. */
  lemma DottedNamesCollide(kind: string, tool: string)
    ensures PathKey(kind, tool, [Name("a.b")]) == PathKey(kind, tool, [Name("a"), Name("b")])
  {
    assert Front([Name("a"), Name("b")]) == [Name("a")];
    assert Format([Name("a"), Name("b")]) == "a" + ("." + "b");
  }
}
