/** The type-tagged fingerprint of a value, undone by a parser.

    Values are the nested none/bool/int/str/list/tuple/dict values of a cache key.  A dict
    keeps its entries in insertion order; the fingerprint sorts them by their prints. */
module Fingerprints {
  import opened Options
  import opened Texts
  import opened JsonText
  import opened Sorting

  datatype Value =
    | NoneValue
    | Bool(b: bool)
    | Int(n: int)
    | Str(text: Text)
    | List(items: seq<Value>)
    | Tuple(items: seq<Value>)
    | Dict(entries: seq<Entry>)

  datatype Entry = Entry(key: Value, value: Value)

  // ----- the printer -----

  function Fingerprint(v: Value): string
    decreases v
  {
    match v
    case NoneValue => "none:"
    case Bool(b) => if b then "bool:true" else "bool:false"
    case Int(n) => "int:" + Decimal(n)
    case Str(text) => "str:" + Quote(text)
    case List(items) => "list:[" + Items(Prints(items), ']')
    case Tuple(items) => "tuple:[" + Items(Prints(items), ']')
    case Dict(entries) => "dict:{" + Items(Pairs(SortBy(EntryPrints(entries), Itself)), '}')
  }

  function Itself(key: Key): Key {
    key
  }

  function Prints(vs: seq<Value>): (r: seq<string>)
    ensures |r| == |vs|
    decreases vs
  {
    if vs == [] then [] else [Fingerprint(vs[0])] + Prints(vs[1..])
  }

  /** The sort key of an entry. */
  function PrintedKey(e: Entry): Key
    decreases e
  {
    (Fingerprint(e.key), Fingerprint(e.value))
  }

  function EntryPrints(es: seq<Entry>): (r: seq<Key>)
    ensures |r| == |es|
    decreases es
  {
    if es == [] then [] else [PrintedKey(es[0])] + EntryPrints(es[1..])
  }

  function Pairs(keys: seq<Key>): (r: seq<string>)
    ensures |r| == |keys|
  {
    if keys == [] then [] else [keys[0].0 + ("=" + keys[0].1)] + Pairs(keys[1..])
  }

  /** Comma-separated parts and the closing bracket. */
  function Items(parts: seq<string>, close: char): string {
    if parts == [] then [close]
    else if |parts| == 1 then parts[0] + [close]
    else parts[0] + ("," + Items(parts[1..], close))
  }

  // ----- the parser -----

  predicate After(s: string, tag: string) {
    |tag| <= |s| && s[..|tag|] == tag
  }

  function Parse(s: string): (r: Option<(Value, string)>)
    ensures r.Some? ==> |r.value.1| < |s|
    decreases |s|, 1
  {
    if After(s, "none:") then Some((NoneValue, s[5..]))
    else if After(s, "bool:true") then Some((Bool(true), s[9..]))
    else if After(s, "bool:false") then Some((Bool(false), s[10..]))
    else if After(s, "int:") then
      var n := ReadDecimal(s[4..]);
      if n.None? then None else Some((Int(n.value.0), n.value.1))
    else if After(s, "str:\"") then
      var t := ReadString(s[5..]);
      if t.None? then None else Some((Str(t.value.0), t.value.1))
    else if After(s, "list:[") then
      var items := ParseItems(s[6..]);
      if items.None? then None else Some((List(items.value.0), items.value.1))
    else if After(s, "tuple:[") then
      var items := ParseItems(s[7..]);
      if items.None? then None else Some((Tuple(items.value.0), items.value.1))
    else if After(s, "dict:{") then
      var entries := ParseEntries(s[6..]);
      if entries.None? then None else Some((Dict(entries.value.0), entries.value.1))
    else None
  }

  function ParseItems(s: string): (r: Option<(seq<Value>, string)>)
    ensures r.Some? ==> |r.value.1| < |s|
    decreases |s|, 2
  {
    if s != "" && s[0] == ']' then Some(([], s[1..]))
    else
      var v := Parse(s);
      if v.None? || v.value.1 == "" then None
      else if v.value.1[0] == ']' then Some(([v.value.0], v.value.1[1..]))
      else if v.value.1[0] == ',' then
        var more := ParseItems(v.value.1[1..]);
        if more.None? then None else Some(([v.value.0] + more.value.0, more.value.1))
      else None
  }

  function ParseEntries(s: string): (r: Option<(seq<Entry>, string)>)
    ensures r.Some? ==> |r.value.1| < |s|
    decreases |s|, 2
  {
    if s != "" && s[0] == '}' then Some(([], s[1..]))
    else
      var k := Parse(s);
      if k.None? || k.value.1 == "" || k.value.1[0] != '=' then None
      else
        var v := Parse(k.value.1[1..]);
        if v.None? || v.value.1 == "" then None
        else if v.value.1[0] == '}' then Some(([Entry(k.value.0, v.value.0)], v.value.1[1..]))
        else if v.value.1[0] == ',' then
          var more := ParseEntries(v.value.1[1..]);
          if more.None? then None else Some(([Entry(k.value.0, v.value.0)] + more.value.0, more.value.1))
        else None
  }

  // ----- canonical values -----

  /** A value with its surrogate pairs combined and its dict entries in printed order. */
  function Canonical(v: Value): Value
    decreases v
  {
    match v
    case Str(text) => Str(Combine(text))
    case List(items) => List(CanonicalAll(items))
    case Tuple(items) => Tuple(CanonicalAll(items))
    case Dict(entries) => Dict(SortBy(CanonicalEntries(entries), PrintedKey))
    case _ => v
  }

  function CanonicalAll(vs: seq<Value>): (r: seq<Value>)
    ensures |r| == |vs|
    ensures forall i :: 0 <= i < |vs| ==> r[i] == Canonical(vs[i])
    decreases vs
  {
    if vs == [] then [] else [Canonical(vs[0])] + CanonicalAll(vs[1..])
  }

  function CanonicalEntry(e: Entry): Entry
    decreases e
  {
    Entry(Canonical(e.key), Canonical(e.value))
  }

  function CanonicalEntries(es: seq<Entry>): (r: seq<Entry>)
    ensures |r| == |es|
    ensures forall i :: 0 <= i < |es| ==> r[i] == CanonicalEntry(es[i])
    decreases es
  {
    if es == [] then [] else [CanonicalEntry(es[0])] + CanonicalEntries(es[1..])
  }

  lemma {:induction false} EntryPrintsMap(es: seq<Entry>)
    ensures EntryPrints(es) == MapSeq(es, PrintedKey)
  {
    if es != [] {
      EntryPrintsMap(es[1..]);
    }
  }

  /** Sorting the prints is printing the sorted entries. */
  lemma SortedPrints(es: seq<Entry>)
    ensures SortBy(EntryPrints(es), Itself) == EntryPrints(SortBy(es, PrintedKey))
  {
    EntryPrintsMap(es);
    SortMaps(es, PrintedKey, PrintedKey, Itself);
    EntryPrintsMap(SortBy(es, PrintedKey));
  }

  /** The fingerprint depends on the canonical value only. */
  lemma {:induction false} FingerprintOfCanonical(v: Value)
    ensures Fingerprint(Canonical(v)) == Fingerprint(v)
    decreases v, 1
  {
    match v
    case Str(text) => EscapeCombined(text);
    case List(items) => PrintsOfCanonical(items);
    case Tuple(items) => PrintsOfCanonical(items);
    case Dict(entries) =>
      EntriesOfCanonical(entries);
      var ces := CanonicalEntries(entries);
      var sorted := SortBy(ces, PrintedKey);
      SortedPrints(ces);
      SortedPrints(sorted);
      SortBySorts(ces, PrintedKey);
      SortedStays(sorted, PrintedKey);
    case _ =>
  }

  lemma {:induction false} PrintsOfCanonical(vs: seq<Value>)
    ensures Prints(CanonicalAll(vs)) == Prints(vs)
    decreases vs, 0
  {
    if vs != [] {
      FingerprintOfCanonical(vs[0]);
      PrintsOfCanonical(vs[1..]);
      assert CanonicalAll(vs)[1..] == CanonicalAll(vs[1..]);
    }
  }

  lemma {:induction false} EntryOfCanonical(e: Entry)
    ensures PrintedKey(CanonicalEntry(e)) == PrintedKey(e)
    decreases e, 0
  {
    FingerprintOfCanonical(e.key);
    FingerprintOfCanonical(e.value);
  }

  lemma {:induction false} EntriesOfCanonical(es: seq<Entry>)
    ensures EntryPrints(CanonicalEntries(es)) == EntryPrints(es)
    decreases es, 0
  {
    if es != [] {
      EntryOfCanonical(es[0]);
      EntriesOfCanonical(es[1..]);
      assert CanonicalEntries(es)[1..] == CanonicalEntries(es[1..]);
    }
  }

  // ----- the parser undoes the printer -----

  /** What may follow a value: nothing that could extend a number. */
  predicate Stops(rest: string) {
    rest == "" || !IsDigit(rest[0])
  }

  lemma TagEnds(tag: string, body: string, rest: string)
    requires |tag| >= 5
    ensures After(tag + body + rest, tag)
    ensures (tag + body + rest)[|tag|..] == body + rest
    ensures (tag + body + rest)[0] == tag[0]
    ensures |tag| > 5 ==> (tag + body + rest)[5] == tag[5]
    ensures OtherTags(tag + body + rest)
  {
    var s := tag + body + rest;
    Differ(s, "none:", 0);
    Differ(s, "bool:true", 0);
    Differ(s, "bool:true", 5);
    Differ(s, "bool:false", 0);
    Differ(s, "int:", 0);
    Differ(s, "str:\"", 0);
    Differ(s, "list:[", 0);
    Differ(s, "tuple:[", 0);
  }

  lemma Differ(s: string, tag: string, i: nat)
    requires i < |tag|
    ensures After(s, tag) ==> s[i] == tag[i]
  {
    if After(s, tag) {
      assert s[..|tag|][i] == s[i];
    }
  }

  /** The first characters rule the other tags out. */
  predicate OtherTags(s: string) {
    && (After(s, "none:") ==> s[0] == 'n')
    && (After(s, "bool:true") ==> s[0] == 'b' && s[5] == 't')
    && (After(s, "bool:false") ==> s[0] == 'b')
    && (After(s, "int:") ==> s[0] == 'i')
    && (After(s, "str:\"") ==> s[0] == 's')
    && (After(s, "list:[") ==> s[0] == 'l')
    && (After(s, "tuple:[") ==> s[0] == 't')
  }

  lemma NotClosing(v: Value, rest: string)
    ensures var s := Fingerprint(v) + rest; s != "" && s[0] != ']' && s[0] != '}'
  {
  }

  lemma IntRound(n: int, rest: string)
    requires Stops(rest)
    ensures Parse("int:" + Decimal(n) + rest) == Some((Int(n), rest))
  {
    var s := "int:" + Decimal(n) + rest;
    assert s[..4] == "int:" && s[4..] == Decimal(n) + rest;
    Differ(s, "none:", 0);
    Differ(s, "bool:true", 0);
    Differ(s, "bool:false", 0);
    DecimalRound(n, rest);
  }

  lemma StrTagRound(body: string, rest: string, text: Text)
    requires ReadString(body + rest) == Some((text, rest))
    ensures Parse("str:\"" + body + rest) == Some((Str(text), rest))
  {
    TagEnds("str:\"", body, rest);
  }

  lemma QuoteSplits(escaped: string, rest: string)
    ensures "str:" + ("\"" + escaped + "\"") + rest == "str:\"" + (escaped + "\"") + rest
    ensures escaped + "\"" + rest == escaped + ("\"" + rest)
  {
  }

  lemma StrRound(text: Text, rest: string)
    ensures Parse("str:" + Quote(text) + rest) == Some((Str(Combine(text)), rest))
  {
    QuoteSplits(EscapeAll(text), rest);
    StringRound(text, rest);
    StrTagRound(EscapeAll(text) + "\"", rest, Combine(text));
  }

  lemma LeafRound(v: Value, rest: string)
    requires v.NoneValue? || v.Bool?
    ensures Parse(Fingerprint(v) + rest) == Some((v, rest))
  {
    if v.NoneValue? {
      TagEnds("none:", "", rest);
    } else if v.b {
      TagEnds("bool:true", "", rest);
    } else {
      TagEnds("bool:false", "", rest);
    }
  }

  lemma ListTagRound(body: string, rest: string, vs: seq<Value>)
    requires ParseItems(body + rest) == Some((vs, rest))
    ensures Parse("list:[" + body + rest) == Some((List(vs), rest))
  {
    TagEnds("list:[", body, rest);
  }

  lemma TupleTagRound(body: string, rest: string, vs: seq<Value>)
    requires ParseItems(body + rest) == Some((vs, rest))
    ensures Parse("tuple:[" + body + rest) == Some((Tuple(vs), rest))
  {
    TagEnds("tuple:[", body, rest);
  }

  lemma DictTagRound(body: string, rest: string, es: seq<Entry>)
    requires ParseEntries(body + rest) == Some((es, rest))
    ensures Parse("dict:{" + body + rest) == Some((Dict(es), rest))
  {
    TagEnds("dict:{", body, rest);
  }

  lemma ListRound(v: Value, rest: string)
    requires v.List? || v.Tuple?
    requires ParseItems(Items(Prints(v.items), ']') + rest) == Some((CanonicalAll(v.items), rest))
    ensures Parse(Fingerprint(v) + rest) == Some((Canonical(v), rest))
  {
    if v.List? {
      ListTagRound(Items(Prints(v.items), ']'), rest, CanonicalAll(v.items));
    } else {
      TupleTagRound(Items(Prints(v.items), ']'), rest, CanonicalAll(v.items));
    }
  }

  /** The parser reads a print back, as the canonical value, and stops where it ends. */
  lemma {:induction false} ParseRound(v: Value, rest: string)
    requires Stops(rest)
    ensures Parse(Fingerprint(v) + rest) == Some((Canonical(v), rest))
    decreases v, 1, 0
  {
    match v
    case NoneValue => LeafRound(v, rest);
    case Bool(_) => LeafRound(v, rest);
    case Int(n) => IntRound(n, rest);
    case Str(text) => StrRound(text, rest);
    case List(items) =>
      ItemsRound(v, items, rest);
      ListRound(v, rest);
    case Tuple(items) =>
      ItemsRound(v, items, rest);
      ListRound(v, rest);
    case Dict(entries) => DictRound(v, rest);
  }

  lemma {:induction false} ItemsRound(owner: Value, vs: seq<Value>, rest: string)
    requires owner.List? || owner.Tuple?
    requires forall v :: v in vs ==> v in owner.items
    ensures ParseItems(Items(Prints(vs), ']') + rest) == Some((CanonicalAll(vs), rest))
    decreases owner, 0, |vs|
  {
    if vs == [] {
      assert Items(Prints(vs), ']') + rest == "]" + rest;
    } else {
      assert vs[0] in owner.items;
      var more := Items(Prints(vs[1..]), ']');
      ItemSplits(vs, rest);
      if |vs| == 1 {
        ParseRound(vs[0], "]" + rest);
        NotClosing(vs[0], "]" + rest);
        assert ("]" + rest)[1..] == rest;
        assert CanonicalAll(vs) == [Canonical(vs[0])];
      } else {
        ParseRound(vs[0], "," + (more + rest));
        NotClosing(vs[0], "," + (more + rest));
        ItemsRound(owner, vs[1..], rest);
        assert ("," + (more + rest))[1..] == more + rest;
      }
    }
  }

  /** The entries of a dict in printed order are its entries. */
  lemma SortedEntries(es: seq<Entry>)
    ensures var sorted := SortBy(es, PrintedKey);
      |sorted| == |es| && forall e :: e in sorted ==> e in es
  {
    var sorted := SortBy(es, PrintedKey);
    SortBySorts(es, PrintedKey);
    forall e | e in sorted ensures e in es {
      assert e in multiset(sorted);
    }
    assert |multiset(sorted)| == |multiset(es)|;
  }

  lemma {:induction false} DictRound(v: Value, rest: string)
    requires v.Dict?
    ensures Parse(Fingerprint(v) + rest) == Some((Canonical(v), rest))
    decreases v, 0, |v.entries| + 1
  {
    var es := SortBy(v.entries, PrintedKey);
    SortedEntries(v.entries);
    EntriesRound(v, es, rest);
    DictParses(v, es, rest);
  }

  lemma DictParses(v: Value, es: seq<Entry>, rest: string)
    requires v.Dict? && es == SortBy(v.entries, PrintedKey)
    requires ParseEntries(Items(Pairs(EntryPrints(es)), '}') + rest) == Some((CanonicalEntries(es), rest))
    ensures Parse(Fingerprint(v) + rest) == Some((Canonical(v), rest))
  {
    SortedPrints(v.entries);
    DictTagRound(Items(Pairs(EntryPrints(es)), '}'), rest, CanonicalEntries(es));
    CanonicalSorts(v.entries);
  }

  /** Canonical entries sort as their originals do. */
  lemma CanonicalSorts(es: seq<Entry>)
    ensures CanonicalEntries(SortBy(es, PrintedKey)) == SortBy(CanonicalEntries(es), PrintedKey)
  {
    CanonicalMap(es);
    CanonicalMap(SortBy(es, PrintedKey));
    forall e | e in es
      ensures PrintedKey(CanonicalEntry(e)) == PrintedKey(e)
    {
      EntryOfCanonical(e);
    }
    SortMaps(es, CanonicalEntry, PrintedKey, PrintedKey);
  }

  lemma {:induction false} CanonicalMap(es: seq<Entry>)
    ensures CanonicalEntries(es) == MapSeq(es, CanonicalEntry)
  {
    if es != [] {
      CanonicalMap(es[1..]);
    }
  }

  lemma LastEntryParses(s: string, key: Value, value: string, x: Value, rest: string)
    requires s != "" && s[0] != '}' && Parse(s) == Some((key, "=" + value)) && Parse(value) == Some((x, "}" + rest))
    ensures ParseEntries(s) == Some(([Entry(key, x)], rest))
  {
    assert ("=" + value)[1..] == value && ("}" + rest)[1..] == rest;
  }

  lemma NextEntryParses(s: string, key: Value, value: string, x: Value, more: string, es: seq<Entry>, rest: string)
    requires s != "" && s[0] != '}' && Parse(s) == Some((key, "=" + value)) && Parse(value) == Some((x, "," + more))
    requires ParseEntries(more) == Some((es, rest))
    ensures ParseEntries(s) == Some(([Entry(key, x)] + es, rest))
  {
    assert ("=" + value)[1..] == value && ("," + more)[1..] == more;
  }

  lemma {:induction false} EntriesRound(owner: Value, es: seq<Entry>, rest: string)
    requires owner.Dict? && |es| <= |owner.entries|
    requires forall e :: e in es ==> e in owner.entries
    ensures ParseEntries(Items(Pairs(EntryPrints(es)), '}') + rest) == Some((CanonicalEntries(es), rest))
    decreases owner, 0, |es|
  {
    if es == [] {
      assert Items(Pairs(EntryPrints(es)), '}') + rest == "}" + rest;
    } else {
      assert es[0] in owner.entries;
      var k, x := es[0].key, es[0].value;
      var more := Items(Pairs(EntryPrints(es[1..])), '}') + rest;
      var tail := if |es| == 1 then "}" + rest else "," + more;
      var value := Fingerprint(x) + tail;
      var s := Fingerprint(k) + ("=" + value);
      EntrySplits(es, rest);
      ParseRound(k, "=" + value);
      NotClosing(k, "=" + value);
      ParseRound(x, tail);
      if |es| == 1 {
        LastEntryParses(s, Canonical(k), value, Canonical(x), rest);
        assert CanonicalEntries(es) == [CanonicalEntry(es[0])];
      } else {
        EntriesRound(owner, es[1..], rest);
        NextEntryParses(s, Canonical(k), value, Canonical(x), more, CanonicalEntries(es[1..]), rest);
      }
    }
  }

  lemma ItemSplits(vs: seq<Value>, rest: string)
    requires vs != []
    ensures Items(Prints(vs), ']') + rest ==
            Fingerprint(vs[0]) + if |vs| == 1 then "]" + rest else "," + (Items(Prints(vs[1..]), ']') + rest)
  {
    var p := Prints(vs);
    assert p[0] == Fingerprint(vs[0]);
    ItemsSplit(p, ']', rest);
    assert p[1..] == Prints(vs[1..]);
  }

  lemma ItemsSplit(parts: seq<string>, close: char, rest: string)
    requires parts != []
    ensures Items(parts, close) + rest ==
            parts[0] + if |parts| == 1 then [close] + rest else "," + (Items(parts[1..], close) + rest)
  {
    if |parts| == 1 {
      Regroup(parts[0], [close], rest);
    } else {
      var more := Items(parts[1..], close);
      Regroup(parts[0], "," + more, rest);
      Regroup(",", more, rest);
    }
  }

  lemma EntrySplits(es: seq<Entry>, rest: string)
    requires es != []
    ensures var tail := if |es| == 1 then "}" + rest
                        else "," + (Items(Pairs(EntryPrints(es[1..])), '}') + rest);
      Items(Pairs(EntryPrints(es)), '}') + rest
      == Fingerprint(es[0].key) + ("=" + (Fingerprint(es[0].value) + tail))
  {
    var keys := EntryPrints(es);
    var p := Pairs(keys);
    assert keys[1..] == EntryPrints(es[1..]);
    assert p[1..] == Pairs(keys[1..]);
    assert p[0] == Fingerprint(es[0].key) + ("=" + Fingerprint(es[0].value));
    ItemsSplit(p, '}', rest);
    Regroup3(Fingerprint(es[0].key), Fingerprint(es[0].value),
             if |es| == 1 then "}" + rest else "," + (Items(Pairs(EntryPrints(es[1..])), '}') + rest));
  }

  lemma Regroup3(a: string, b: string, tail: string)
    ensures (a + ("=" + b)) + tail == a + ("=" + (b + tail))
  {
  }

  /** Round trip: parsing a fingerprint gives the canonical value and leaves nothing. */
  lemma RoundTrip(v: Value)
    ensures Parse(Fingerprint(v)) == Some((Canonical(v), ""))
  {
    ParseRound(v, "");
    assert Fingerprint(v) + "" == Fingerprint(v);
  }

  lemma EqualPrints(a: Value, b: Value)
    ensures Fingerprint(a) == Fingerprint(b) <==> Canonical(a) == Canonical(b)
  {
    RoundTrip(a);
    RoundTrip(b);
    FingerprintOfCanonical(a);
    FingerprintOfCanonical(b);
  }

  lemma CanonicalTwice(v: Value)
    ensures Canonical(Canonical(v)) == Canonical(v)
  {
    FingerprintOfCanonical(v);
    EqualPrints(Canonical(v), v);
  }

  // ----- equality up to dict order -----

  /** Typed equality that ignores the order of dict entries.  With `exact` strings are equal
      code point by code point, without it when they combine to the same text. */
  ghost predicate Same(a: Value, b: Value, exact: bool)
    decreases a
  {
    match (a, b)
    case (Str(s), Str(t)) => if exact then s == t else Combine(s) == Combine(t)
    case (List(xs), List(ys)) => |xs| == |ys| && forall i :: 0 <= i < |xs| ==> Same(xs[i], ys[i], exact)
    case (Tuple(xs), Tuple(ys)) => |xs| == |ys| && forall i :: 0 <= i < |xs| ==> Same(xs[i], ys[i], exact)
    case (Dict(es), Dict(fs)) => |es| == |fs| && forall i :: 0 <= i < |es| ==> Matched(es[i], fs, exact)
    case (_, _) => a == b
  }

  /** Some entry of `fs` has the same key and the same value. */
  ghost predicate Matched(e: Entry, fs: seq<Entry>, exact: bool)
    decreases e
  {
    exists j :: 0 <= j < |fs| && Same(e.key, fs[j].key, exact) && Same(e.value, fs[j].value, exact)
  }

  /** Keys of every dict are pairwise different once surrogate pairs are combined. */
  ghost predicate DistinctKeys(v: Value)
    decreases v
  {
    match v
    case List(xs) => forall i :: 0 <= i < |xs| ==> DistinctKeys(xs[i])
    case Tuple(xs) => forall i :: 0 <= i < |xs| ==> DistinctKeys(xs[i])
    case Dict(es) =>
      && (forall i :: 0 <= i < |es| ==> DistinctEntry(es[i]))
      && forall i, j :: 0 <= i < j < |es| ==> !Same(es[i].key, es[j].key, false)
    case _ => true
  }

  ghost predicate DistinctEntry(e: Entry)
    decreases e
  {
    DistinctKeys(e.key) && DistinctKeys(e.value)
  }

  lemma {:induction false} CanonicalEqualSame(a: Value, b: Value)
    requires Canonical(a) == Canonical(b)
    ensures Same(a, b, false)
    decreases a
  {
    match (a, b)
    case (List(xs), List(ys)) =>
      forall i | 0 <= i < |xs| ensures Same(xs[i], ys[i], false) {
        assert CanonicalAll(xs)[i] == CanonicalAll(ys)[i];
        CanonicalEqualSame(xs[i], ys[i]);
      }
    case (Tuple(xs), Tuple(ys)) =>
      forall i | 0 <= i < |xs| ensures Same(xs[i], ys[i], false) {
        assert CanonicalAll(xs)[i] == CanonicalAll(ys)[i];
        CanonicalEqualSame(xs[i], ys[i]);
      }
    case (Dict(es), Dict(fs)) =>
      var ces, cfs := CanonicalEntries(es), CanonicalEntries(fs);
      SortBySorts(ces, PrintedKey);
      SortBySorts(cfs, PrintedKey);
      assert |multiset(ces)| == |multiset(cfs)|;
      forall i | 0 <= i < |es| ensures Matched(es[i], fs, false) {
        assert ces[i] in multiset(ces);
        assert ces[i] in cfs;
        var j :| 0 <= j < |cfs| && cfs[j] == ces[i];
        EntrySame(es[i], fs[j]);
      }
    case (_, _) =>
  }

  lemma {:induction false} EntrySame(e: Entry, f: Entry)
    requires CanonicalEntry(e) == CanonicalEntry(f)
    ensures Same(e.key, f.key, false) && Same(e.value, f.value, false)
    decreases e
  {
    CanonicalEqualSame(e.key, f.key);
    CanonicalEqualSame(e.value, f.value);
  }

  lemma {:induction false} SameCanonicalEqual(a: Value, b: Value)
    requires Same(a, b, false) && DistinctKeys(a)
    ensures Canonical(a) == Canonical(b)
    decreases a
  {
    match (a, b)
    case (List(xs), List(ys)) =>
      forall i | 0 <= i < |xs| ensures CanonicalAll(xs)[i] == CanonicalAll(ys)[i] {
        SameCanonicalEqual(xs[i], ys[i]);
      }
    case (Tuple(xs), Tuple(ys)) =>
      forall i | 0 <= i < |xs| ensures CanonicalAll(xs)[i] == CanonicalAll(ys)[i] {
        SameCanonicalEqual(xs[i], ys[i]);
      }
    case (Dict(es), Dict(fs)) =>
      var ces, cfs := CanonicalEntries(es), CanonicalEntries(fs);
      forall i | 0 <= i < |es| ensures ces[i] in cfs {
        assert Matched(es[i], fs, false);
        assert DistinctEntry(es[i]);
        MatchedCanonical(es[i], fs);
      }
      forall i, j | 0 <= i < j < |es| ensures ces[i] != ces[j] {
        if ces[i] == ces[j] {
          EntrySame(es[i], es[j]);
        }
      }
      NoDuplicatesIncluded(ces, cfs);
      CanonicalKeysDecide(es);
      SortForgetsOrder(ces, cfs, PrintedKey);
    case (_, _) =>
  }

  lemma {:induction false} MatchedCanonical(e: Entry, fs: seq<Entry>)
    requires Matched(e, fs, false) && DistinctEntry(e)
    ensures CanonicalEntry(e) in CanonicalEntries(fs)
    decreases e
  {
    var j :| 0 <= j < |fs| && Same(e.key, fs[j].key, false) && Same(e.value, fs[j].value, false);
    SameCanonicalEqual(e.key, fs[j].key);
    SameCanonicalEqual(e.value, fs[j].value);
    assert CanonicalEntries(fs)[j] == CanonicalEntry(e);
  }

  lemma CanonicalKeysDecide(es: seq<Entry>)
    ensures KeyDecides(CanonicalEntries(es), PrintedKey)
  {
    var ces := CanonicalEntries(es);
    forall x, y | x in ces && y in ces && PrintedKey(x) == PrintedKey(y)
      ensures x == y
    {
      var i :| 0 <= i < |ces| && ces[i] == x;
      var j :| 0 <= j < |ces| && ces[j] == y;
      EqualPrints(x.key, y.key);
      EqualPrints(x.value, y.value);
      CanonicalTwice(es[i].key);
      CanonicalTwice(es[j].key);
      CanonicalTwice(es[i].value);
      CanonicalTwice(es[j].value);
    }
  }

  lemma RemoveOne<T>(ys: seq<T>, k: nat) returns (rest: seq<T>)
    requires k < |ys|
    ensures |rest| == |ys| - 1 && multiset(ys) == multiset([ys[k]]) + multiset(rest)
    ensures forall y :: y in ys && y != ys[k] ==> y in rest
  {
    rest := ys[..k] + ys[k + 1..];
    assert ys == ys[..k] + ([ys[k]] + ys[k + 1..]);
    forall y | y in ys && y != ys[k] ensures y in rest {
      var m :| 0 <= m < |ys| && ys[m] == y;
      assert y == if m < k then rest[m] else rest[m - 1];
    }
  }

  /** A sequence without repeats, included in another of its length, is a rearrangement of it. */
  lemma {:induction false} NoDuplicatesIncluded<T>(xs: seq<T>, ys: seq<T>)
    requires |xs| == |ys|
    requires forall i :: 0 <= i < |xs| ==> xs[i] in ys
    requires forall i, j :: 0 <= i < j < |xs| ==> xs[i] != xs[j]
    ensures multiset(xs) == multiset(ys)
  {
    if xs != [] {
      var k :| 0 <= k < |ys| && ys[k] == xs[0];
      var rest := RemoveOne(ys, k);
      NoDuplicatesIncluded(xs[1..], rest);
      assert xs == [xs[0]] + xs[1..];
    }
  }

  /** The fingerprint is canonical: two fingerprints are equal exactly when the values are
      equal up to dict order and up to combining surrogate pairs. */
  lemma FingerprintsAgree(a: Value, b: Value)
    requires DistinctKeys(a)
    ensures Fingerprint(a) == Fingerprint(b) <==> Same(a, b, false)
  {
    EqualPrints(a, b);
    if Same(a, b, false) {
      SameCanonicalEqual(a, b);
    }
    if Canonical(a) == Canonical(b) {
      CanonicalEqualSame(a, b);
    }
  }

  // ----- where it is plain equality -----

  /** No string holds a high surrogate followed by a low one. */
  ghost predicate PairFreeValue(v: Value)
    decreases v
  {
    match v
    case Str(s) => PairFree(s)
    case List(xs) => forall i :: 0 <= i < |xs| ==> PairFreeValue(xs[i])
    case Tuple(xs) => forall i :: 0 <= i < |xs| ==> PairFreeValue(xs[i])
    case Dict(es) => forall i :: 0 <= i < |es| ==> PairFreeEntry(es[i])
    case _ => true
  }

  ghost predicate PairFreeEntry(e: Entry)
    decreases e
  {
    PairFreeValue(e.key) && PairFreeValue(e.value)
  }

  lemma {:induction false} SameIsExact(a: Value, b: Value)
    requires PairFreeValue(a) && PairFreeValue(b)
    ensures Same(a, b, false) == Same(a, b, true)
    decreases a
  {
    match (a, b)
    case (Str(s), Str(t)) =>
      CombineKeepsPairFree(s);
      CombineKeepsPairFree(t);
    case (List(xs), List(ys)) =>
      if |xs| == |ys| {
        forall i | 0 <= i < |xs| ensures Same(xs[i], ys[i], false) == Same(xs[i], ys[i], true) {
          SameIsExact(xs[i], ys[i]);
        }
      }
    case (Tuple(xs), Tuple(ys)) =>
      if |xs| == |ys| {
        forall i | 0 <= i < |xs| ensures Same(xs[i], ys[i], false) == Same(xs[i], ys[i], true) {
          SameIsExact(xs[i], ys[i]);
        }
      }
    case (Dict(es), Dict(fs)) =>
      forall i | 0 <= i < |es| ensures Matched(es[i], fs, false) == Matched(es[i], fs, true) {
        assert PairFreeEntry(es[i]);
        MatchedIsExact(es[i], fs);
      }
    case (_, _) =>
  }

  lemma {:induction false} MatchedIsExact(e: Entry, fs: seq<Entry>)
    requires PairFreeEntry(e) && forall j :: 0 <= j < |fs| ==> PairFreeEntry(fs[j])
    ensures Matched(e, fs, false) == Matched(e, fs, true)
    decreases e
  {
    forall j | 0 <= j < |fs|
      ensures Same(e.key, fs[j].key, false) == Same(e.key, fs[j].key, true)
      ensures Same(e.value, fs[j].value, false) == Same(e.value, fs[j].value, true)
    {
      assert PairFreeEntry(fs[j]);
      SameIsExact(e.key, fs[j].key);
      SameIsExact(e.value, fs[j].value);
    }
  }

  /** Without surrogate pairs, fingerprints are equal exactly when the values are equal up to
      dict order. */
  lemma FingerprintIsEquality(a: Value, b: Value)
    requires DistinctKeys(a) && PairFreeValue(a) && PairFreeValue(b)
    ensures Fingerprint(a) == Fingerprint(b) <==> Same(a, b, true)
  {
    FingerprintsAgree(a, b);
    SameIsExact(a, b);
  }

  /** Two surrogate code points and the one code point they encode are different strings with
      one fingerprint. */
  lemma SurrogatesCollide()
    ensures var a, b := Str([0xD83D, 0xDE00]), Str([0x1F600]);
      Fingerprint(a) == Fingerprint(b) && !Same(a, b, true) && DistinctKeys(a)
  {
    var a, b := Str([0xD83D, 0xDE00]), Str([0x1F600]);
    assert [0xD83D, 0xDE00][2..] == [];
    assert Combine(a.text) == [0x1F600];
    assert [0x1F600][1..] == [];
    assert Combine(b.text) == [0x1F600];
    FingerprintsAgree(a, b);
  }
}
