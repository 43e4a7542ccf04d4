/** The described places of a schema, as the iterator yields them, and the lens laws. */
module SchemaLens {
  import opened Options
  import opened Schemas

  /** A described place: its path and its description. */
  datatype Entry = Entry(path: Path, text: string)

  // ----- sizes, for termination -----

  function Size(j: Json): nat {
    match j
    case Array(items) => 1 + ItemsSize(items)
    case Object(fields) => 1 + FieldsSize(fields)
    case _ => 1
  }

  function ItemsSize(items: seq<Json>): nat {
    if items == [] then 0 else Size(items[0]) + ItemsSize(items[1..])
  }

  function FieldSize(f: Field): nat {
    Size(f.value)
  }

  function FieldsSize(fields: seq<Field>): nat {
    if fields == [] then 0 else FieldSize(fields[0]) + FieldsSize(fields[1..])
  }

  lemma {:induction false} GetSmaller(fields: seq<Field>, name: string)
    ensures Get(fields, name).Some? ==> Size(Get(fields, name).value) <= FieldsSize(fields)
  {
    if fields != [] && fields[0].name != name {
      GetSmaller(fields[1..], name);
    }
  }

  // ----- the iterator -----

  predicate TypeIs(j: Json, name: string)
    requires j.Object?
  {
    Get(j.fields, "type") == Some(String(name))
  }

  /** A description worth yielding. */
  function Text(j: Json, blank: string -> bool): Option<string> {
    var d := Described(j);
    if d.Some? && d.value.String? && !blank(d.value.s) then Some(d.value.s) else None
  }

  /** The properties that are iterated. */
  function Properties(j: Json): seq<Field>
    requires j.Object?
  {
    var p := Get(j.fields, "properties");
    if TypeIs(j, "object") && p.Some? && p.value.Object? then p.value.fields else []
  }

  /** The items schema that is iterated, if any. */
  function ArrayItems(j: Json): Option<Json>
    requires j.Object?
  {
    var items := Get(j.fields, "items");
    if TypeIs(j, "array") && items.Some? && items.value.Object? then items else None
  }

  function Prepend(s: Step, es: seq<Entry>): (r: seq<Entry>)
    ensures |r| == |es| && forall i :: 0 <= i < |es| ==> r[i] == Entry([s] + es[i].path, es[i].text)
  {
    if es == [] then [] else [Entry([s] + es[0].path, es[0].text)] + Prepend(s, es[1..])
  }

  /** The node's own description; the root of a schema is never yielded. */
  function Own(j: Json, named: bool, blank: string -> bool): seq<Entry> {
    if named && Text(j, blank).Some? then [Entry([], Text(j, blank).value)] else []
  }

  /** A const option that is described, at its position. */
  function OptionEntry(option: Json, at: nat, blank: string -> bool): seq<Entry> {
    if IsConst(option) && Text(option, blank).Some? then [Entry([Position(at)], Text(option, blank).value)] else []
  }

  /** The described const options, from position `at` on. */
  function OptionEntries(options: seq<Json>, at: nat, blank: string -> bool): seq<Entry> {
    if options == [] then []
    else OptionEntry(options[0], at, blank) + OptionEntries(options[1..], at + 1, blank)
  }

  function Opts(j: Json, named: bool, blank: string -> bool): seq<Entry>
    requires j.Object?
  {
    if named then OptionEntries(UnionOptions(j), 0, blank) else []
  }

  /** The described places below a node, with paths relative to it. */
  function Entries(j: Json, named: bool, blank: string -> bool): seq<Entry>
    decreases Size(j), 1
  {
    if !j.Object? then []
    else
      GetSmaller(j.fields, "properties");
      GetSmaller(j.fields, "items");
      Own(j, named, blank) + (Opts(j, named, blank) + (PropertyEntries(Properties(j), blank)
      + (if ArrayItems(j).Some? then Prepend(ITEMS, Entries(ArrayItems(j).value, true, blank)) else [])))
  }

  function PropertyEntries(fields: seq<Field>, blank: string -> bool): seq<Entry>
    decreases FieldsSize(fields), 2, |fields|
  {
    if fields == [] then []
    else
      assert Size(fields[0].value) <= FieldsSize(fields);
      Prepend(Name(fields[0].name), Entries(fields[0].value, true, blank)) + PropertyEntries(fields[1..], blank)
  }

  // ----- tidy schemas -----

  predicate DistinctNames(fields: seq<Field>) {
    forall i, k :: 0 <= i < k < |fields| ==> fields[i].name != fields[k].name
  }

  /** Property names are distinct, as in any dict, and none is "[]", wherever the iterator goes. */
  predicate Tidy(j: Json)
    decreases Size(j), 1
  {
    if !j.Object? then true
    else
      GetSmaller(j.fields, "properties");
      GetSmaller(j.fields, "items");
      && DistinctNames(Properties(j))
      && TidyFields(Properties(j))
      && (ArrayItems(j).Some? ==> Tidy(ArrayItems(j).value))
  }

  predicate TidyFields(fields: seq<Field>)
    decreases FieldsSize(fields), 2, |fields|
  {
    if fields == [] then true
    else
      assert Size(fields[0].value) <= FieldsSize(fields);
      && fields[0].name != "[]" && Tidy(fields[0].value)
      && TidyFields(fields[1..])
  }

  lemma {:induction false} TidyAt(fields: seq<Field>, i: nat)
    requires TidyFields(fields) && i < |fields|
    ensures fields[i].name != "[]" && Tidy(fields[i].value)
    ensures Size(fields[i].value) <= FieldsSize(fields)
    decreases |fields|
  {
    if i > 0 {
      TidyAt(fields[1..], i - 1);
    }
  }

  lemma {:induction false} TidyPut(fields: seq<Field>, i: nat, c: Json)
    requires TidyFields(fields) && i < |fields| && Tidy(c)
    ensures TidyFields(fields[i := Field(fields[i].name, c)])
    decreases |fields|
  {
    var put := fields[i := Field(fields[i].name, c)];
    if i > 0 {
      TidyPut(fields[1..], i - 1, c);
      assert put[1..] == fields[1..][i - 1 := Field(fields[i].name, c)];
    } else {
      assert put[1..] == fields[1..];
    }
  }

  // ----- renaming one path -----

  /** The same entries with one path's text replaced. */
  function Renamed(es: seq<Entry>, path: Path, text: string): (r: seq<Entry>)
    ensures |r| == |es|
    ensures forall i :: 0 <= i < |es| ==> r[i] == if es[i].path == path then Entry(path, text) else es[i]
  {
    if es == [] then [] else [if es[0].path == path then Entry(path, text) else es[0]] + Renamed(es[1..], path, text)
  }

  predicate Has(es: seq<Entry>, path: Path, text: string) {
    Entry(path, text) in es
  }

  lemma RenamedConcat(a: seq<Entry>, b: seq<Entry>, path: Path, text: string)
    ensures Renamed(a + b, path, text) == Renamed(a, path, text) + Renamed(b, path, text)
  {
  }

  lemma RenamedElsewhere(es: seq<Entry>, path: Path, text: string)
    requires forall t :: !Has(es, path, t)
    ensures Renamed(es, path, text) == es
  {
    forall i | 0 <= i < |es| ensures es[i].path != path {
      assert Entry(es[i].path, es[i].text) in es;
      assert !Has(es, path, es[i].text);
    }
  }

  lemma FromPrepended(s: Step, es: seq<Entry>, path: Path, text: string)
    requires Has(Prepend(s, es), path, text)
    ensures path != [] && path[0] == s && Has(es, path[1..], text)
  {
    var i :| 0 <= i < |es| && Prepend(s, es)[i] == Entry(path, text);
    assert path == [s] + es[i].path;
    assert path[1..] == es[i].path;
    assert es[i] == Entry(path[1..], text);
  }

  lemma ToPrepended(s: Step, es: seq<Entry>, path: Path, text: string)
    requires path != [] && path[0] == s && Has(es, path[1..], text)
    ensures Has(Prepend(s, es), path, text)
  {
    var i :| 0 <= i < |es| && es[i] == Entry(path[1..], text);
    assert path == [s] + path[1..];
    assert Prepend(s, es)[i] == Entry(path, text);
  }

  lemma InPrepended(s: Step, es: seq<Entry>, path: Path, text: string)
    ensures Has(Prepend(s, es), path, text) <==> path != [] && path[0] == s && Has(es, path[1..], text)
  {
    if Has(Prepend(s, es), path, text) {
      FromPrepended(s, es, path, text);
    }
    if path != [] && path[0] == s && Has(es, path[1..], text) {
      ToPrepended(s, es, path, text);
    }
  }

  lemma RenamedPrepended(s: Step, es: seq<Entry>, path: Path, text: string)
    requires path != [] && path[0] == s
    ensures Renamed(Prepend(s, es), path, text) == Prepend(s, Renamed(es, path[1..], text))
  {
    assert path == [s] + path[1..];
    forall i | 0 <= i < |es|
      ensures [s] + es[i].path == path <==> es[i].path == path[1..]
    {
      assert ([s] + es[i].path)[1..] == es[i].path;
    }
  }

  // ----- which part of a node yields a path -----

  /** The option at a position yields its description. */
  predicate OptionYields(options: seq<Json>, at: nat, path: Path, text: string, blank: string -> bool) {
    |path| == 1 && path[0].Position? && at <= path[0].index < at + |options|
    && IsConst(options[path[0].index - at]) && Text(options[path[0].index - at], blank) == Some(text)
  }

  lemma {:induction false} OptionPath(options: seq<Json>, at: nat, path: Path, text: string, blank: string -> bool)
    ensures Has(OptionEntries(options, at, blank), path, text) <==> OptionYields(options, at, path, text, blank)
  {
    if options == [] {
    } else {
      OptionPath(options[1..], at + 1, path, text, blank);
      if |path| == 1 && path[0] == Position(at) {
        assert path == [Position(at)];
      }
      if |path| == 1 && path[0].Position? && at < path[0].index < at + |options| {
        assert options[1..][path[0].index - at - 1] == options[path[0].index - at];
      }
    }
  }

  /** Some property of the name `path[0]` yields the rest of the path. */
  predicate PropertyYields(fields: seq<Field>, path: Path, text: string, blank: string -> bool) {
    exists m :: 0 <= m < |fields| && ThroughField(fields[m], path, text, blank)
  }

  predicate ThroughField(f: Field, path: Path, text: string, blank: string -> bool) {
    path != [] && path[0] == Name(f.name) && Has(Entries(f.value, true, blank), path[1..], text)
  }

  lemma {:induction false} PropertyPath(fields: seq<Field>, path: Path, text: string, blank: string -> bool)
    ensures Has(PropertyEntries(fields, blank), path, text) <==> PropertyYields(fields, path, text, blank)
    decreases |fields|
  {
    if fields == [] {
    } else {
      InPrepended(Name(fields[0].name), Entries(fields[0].value, true, blank), path, text);
      PropertyPath(fields[1..], path, text, blank);
      if PropertyYields(fields[1..], path, text, blank) {
        var m :| 0 <= m < |fields[1..]| && ThroughField(fields[1..][m], path, text, blank);
        assert fields[m + 1] == fields[1..][m];
      }
      if PropertyYields(fields, path, text, blank) {
        var m :| 0 <= m < |fields| && ThroughField(fields[m], path, text, blank);
        if m > 0 {
          assert fields[m] == fields[1..][m - 1];
        }
      }
    }
  }

  /** The items of an array yield the rest of a path that starts with the items step. */
  predicate ItemsYield(items: Option<Json>, path: Path, text: string, blank: string -> bool) {
    items.Some? && path != [] && path[0] == ITEMS && Has(Entries(items.value, true, blank), path[1..], text)
  }

  function Rest(items: Option<Json>, blank: string -> bool): seq<Entry> {
    if items.Some? then Prepend(ITEMS, Entries(items.value, true, blank)) else []
  }

  lemma RestPath(items: Option<Json>, path: Path, text: string, blank: string -> bool)
    ensures Has(Rest(items, blank), path, text) <==> ItemsYield(items, path, text, blank)
  {
    if items.Some? {
      InPrepended(ITEMS, Entries(items.value, true, blank), path, text);
    }
  }

  lemma EntriesInParts(j: Json, named: bool, blank: string -> bool)
    requires j.Object?
    ensures Entries(j, named, blank) ==
            Own(j, named, blank) + (Opts(j, named, blank)
                                    + (PropertyEntries(Properties(j), blank) + Rest(ArrayItems(j), blank)))
  {
  }

  lemma InFour(a: seq<Entry>, b: seq<Entry>, c: seq<Entry>, d: seq<Entry>, path: Path, text: string)
    ensures Has(a + (b + (c + d)), path, text) <==>
            Has(a, path, text) || Has(b, path, text) || Has(c, path, text) || Has(d, path, text)
  {
  }

  /** The paths a node yields, and with which texts. */
  lemma NodePath(j: Json, named: bool, path: Path, text: string, blank: string -> bool)
    requires j.Object?
    ensures Has(Entries(j, named, blank), path, text) <==>
            || (path == [] && named && Text(j, blank) == Some(text))
            || (named && OptionYields(UnionOptions(j), 0, path, text, blank))
            || PropertyYields(Properties(j), path, text, blank)
            || ItemsYield(ArrayItems(j), path, text, blank)
  {
    EntriesInParts(j, named, blank);
    InFour(Own(j, named, blank), Opts(j, named, blank), PropertyEntries(Properties(j), blank),
           Rest(ArrayItems(j), blank), path, text);
    OptionPath(UnionOptions(j), 0, path, text, blank);
    PropertyPath(Properties(j), path, text, blank);
    RestPath(ArrayItems(j), path, text, blank);
  }

  /** An iterated property is the child of that name. */
  lemma PropertyIsChild(j: Json, k: nat)
    requires j.Object? && Tidy(j) && k < |Properties(j)| && Properties(j)[k].value.Object?
    ensures Child(j, Name(Properties(j)[k].name)) == Some(Properties(j)[k].value)
    ensures Find(Properties(j), Properties(j)[k].name) == Some(k)
    ensures Properties(j)[k].name != "[]" && Tidy(Properties(j)[k].value)
    ensures Size(Properties(j)[k].value) < Size(j)
  {
    TidyAt(Properties(j), k);
    FindIs(Properties(j), Properties(j)[k].name, k);
    GetSmaller(j.fields, "properties");
  }

  lemma YieldsFromObject(j: Json, named: bool, path: Path, text: string, blank: string -> bool)
    requires Has(Entries(j, named, blank), path, text)
    ensures j.Object?
  {
  }

  // ----- every described place is yielded -----

  /** As in JSON: no object has two fields of one name. */
  ghost predicate Dicts(j: Json)
    decreases Size(j), 1
  {
    match j
    case Object(fields) => DistinctNames(fields) && DictFields(fields)
    case Array(items) => DictItems(items)
    case _ => true
  }

  ghost predicate DictFields(fields: seq<Field>)
    decreases FieldsSize(fields), 2, |fields|
  {
    fields == [] || (FieldSize(fields[0]) <= FieldsSize(fields) && Dicts(fields[0].value) && DictFields(fields[1..]))
  }

  ghost predicate DictItems(items: seq<Json>)
    decreases ItemsSize(items), 2, |items|
  {
    items == [] || (Dicts(items[0]) && DictItems(items[1..]))
  }

  /** The value of the keyword `name` is the string `text`. */
  predicate Says(j: Json, name: string, text: string) {
    j.Object? && Get(j.fields, name) == Some(String(text))
  }

  /** The field `name` of an object. */
  function At(j: Json, name: string): Option<Json> {
    if j.Object? then Get(j.fields, name) else None
  }

  /** Item `k` of the list under `anyOf`, followed by the list under `oneOf`. */
  function OptionAt(j: Json, k: nat): Option<Json> {
    var any, one := At(j, "anyOf"), At(j, "oneOf");
    var n := if any.Some? && any.value.Array? then |any.value.items| else 0;
    if k < n then Some(any.value.items[k])
    else if one.Some? && one.value.Array? && k - n < |one.value.items| then Some(one.value.items[k - n])
    else None
  }

  /** `text` describes the place at the end of the path, and each step leads to the next node: a
      property of a node of type "object", the items of a node of type "array", or, last and
      below a named node, an option with a `const`. */
  ghost predicate Describes(j: Json, named: bool, path: Path, text: string, blank: string -> bool)
    decreases |path|
  {
    if path == [] then named && Says(j, "description", text) && !blank(text)
    else
      match path[0]
      case Position(k) =>
        && named && |path| == 1 && OptionAt(j, k).Some?
        && At(OptionAt(j, k).value, "const").Some? && Says(OptionAt(j, k).value, "description", text) && !blank(text)
      case Name(name) =>
        || (Says(j, "type", "object") && At(j, "properties").Some? && At(At(j, "properties").value, name).Some?
            && Describes(At(At(j, "properties").value, name).value, true, path[1..], text, blank))
        || (name == "[]" && Says(j, "type", "array") && At(j, "items").Some?
            && Describes(At(j, "items").value, true, path[1..], text, blank))
  }

  lemma {:induction false} DictAt(fields: seq<Field>, i: nat)
    requires DictFields(fields) && i < |fields|
    ensures Dicts(fields[i].value) && Size(fields[i].value) <= FieldsSize(fields)
    decreases |fields|
  {
    if i > 0 {
      DictAt(fields[1..], i - 1);
    }
  }

  lemma FieldIsDict(j: Json, name: string)
    requires Dicts(j) && At(j, name).Some?
    ensures Dicts(At(j, name).value) && Size(At(j, name).value) < Size(j)
  {
    DictAt(j.fields, Find(j.fields, name).value);
  }

  lemma OptionDescribes(j: Json, named: bool, path: Path, text: string, blank: string -> bool)
    requires j.Object? && path != [] && path[0].Position?
    ensures named && OptionYields(UnionOptions(j), 0, path, text, blank) <==> Describes(j, named, path, text, blank)
  {
    var k := path[0].index;
    assert OptionAt(j, k) == if k < |UnionOptions(j)| then Some(UnionOptions(j)[k]) else None;
  }

  /** A property is yielded below its name. */
  lemma PropertyIsAt(j: Json, path: Path, text: string, blank: string -> bool)
    requires Dicts(j) && j.Object? && path != [] && path[0].Name?
    ensures PropertyYields(Properties(j), path, text, blank) <==>
            && Says(j, "type", "object") && At(j, "properties").Some? && At(At(j, "properties").value, path[0].name).Some?
            && Has(Entries(At(At(j, "properties").value, path[0].name).value, true, blank), path[1..], text)
  {
    var fields := Properties(j);
    if Says(j, "type", "object") && At(j, "properties").Some? && At(j, "properties").value.Object? {
      FieldIsDict(j, "properties");
      var i := Find(fields, path[0].name);
      if i.Some? && Has(Entries(fields[i.value].value, true, blank), path[1..], text) {
        assert ThroughField(fields[i.value], path, text, blank);
      }
      if PropertyYields(fields, path, text, blank) {
        var m :| 0 <= m < |fields| && ThroughField(fields[m], path, text, blank);
        FindIs(fields, path[0].name, m);
      }
    }
  }

  /** Exactly the described places are yielded, each with its description. */
  lemma {:induction false} YieldedExactly(j: Json, named: bool, path: Path, text: string, blank: string -> bool)
    requires Dicts(j)
    ensures Has(Entries(j, named, blank), path, text) <==> Describes(j, named, path, text, blank)
    decreases |path|
  {
    if j.Object? {
      NodePath(j, named, path, text, blank);
      if path == [] {
      } else if path[0].Position? {
        OptionDescribes(j, named, path, text, blank);
      } else {
        PropertyIsAt(j, path, text, blank);
        var properties, items := At(j, "properties"), At(j, "items");
        if properties.Some? && At(properties.value, path[0].name).Some? {
          FieldIsDict(j, "properties");
          FieldIsDict(properties.value, path[0].name);
          YieldedExactly(At(properties.value, path[0].name).value, true, path[1..], text, blank);
        }
        if items.Some? {
          FieldIsDict(j, "items");
          YieldedExactly(items.value, true, path[1..], text, blank);
        }
      }
    }
  }

  // ----- every yielded path resolves -----

  lemma Descend(j: Json, path: Path)
    requires path != [] && Child(j, path[0]).Some?
    ensures DescriptionAt(j, path) == DescriptionAt(Child(j, path[0]).value, path[1..])
  {
  }

  lemma ResolvesBelow(j: Json, path: Path, child: Json, text: string)
    requires path != [] && Child(j, path[0]) == Some(child) && DescriptionAt(child, path[1..]) == Some(String(text))
    ensures DescriptionAt(j, path) == Some(String(text))
  {
    Descend(j, path);
  }

  lemma OptionDescribed(j: Json, path: Path, text: string, blank: string -> bool)
    requires j.Object? && OptionYields(UnionOptions(j), 0, path, text, blank)
    ensures Child(j, path[0]) == Some(UnionOptions(j)[path[0].index])
    ensures DescriptionAt(j, path) == Some(String(text)) && !blank(text)
  {
    Descend(j, path);
    assert path[1..] == [];
  }

  lemma PropertyOf(j: Json, path: Path, text: string, blank: string -> bool) returns (m: nat)
    requires j.Object? && Tidy(j) && PropertyYields(Properties(j), path, text, blank)
    ensures m < |Properties(j)| && path != [] && path[0] == Name(Properties(j)[m].name)
    ensures Child(j, path[0]) == Some(Properties(j)[m].value)
    ensures Has(Entries(Properties(j)[m].value, true, blank), path[1..], text)
    ensures Find(Properties(j), Properties(j)[m].name) == Some(m) && Properties(j)[m].name != "[]"
    ensures Tidy(Properties(j)[m].value) && Size(Properties(j)[m].value) < Size(j)
  {
    m :| 0 <= m < |Properties(j)| && ThroughField(Properties(j)[m], path, text, blank);
    YieldsFromObject(Properties(j)[m].value, true, path[1..], text, blank);
    PropertyIsChild(j, m);
  }

  lemma ItemsOf(j: Json, path: Path, text: string, blank: string -> bool)
    requires j.Object? && Tidy(j) && ItemsYield(ArrayItems(j), path, text, blank)
    ensures Child(j, path[0]) == ArrayItems(j) && Tidy(ArrayItems(j).value)
    ensures Size(ArrayItems(j).value) < Size(j)
  {
    GetSmaller(j.fields, "items");
  }

  lemma OwnResolves(j: Json, text: string, blank: string -> bool)
    requires j.Object? && Text(j, blank) == Some(text)
    ensures DescriptionAt(j, []) == Some(String(text)) && !blank(text)
  {
  }

  /** The child that yields the rest of a path which the node itself does not describe. */
  lemma YieldingChild(j: Json, named: bool, path: Path, text: string, blank: string -> bool) returns (child: Json)
    requires j.Object? && Tidy(j) && Has(Entries(j, named, blank), path, text)
    requires path != [] && !OptionYields(UnionOptions(j), 0, path, text, blank)
    ensures Child(j, path[0]) == Some(child) && Tidy(child) && Size(child) < Size(j)
    ensures Has(Entries(child, true, blank), path[1..], text)
  {
    NodePath(j, named, path, text, blank);
    if PropertyYields(Properties(j), path, text, blank) {
      var m := PropertyOf(j, path, text, blank);
      child := Properties(j)[m].value;
    } else {
      ItemsOf(j, path, text, blank);
      child := ArrayItems(j).value;
    }
  }

  /** Every yielded path resolves to the description it is yielded with, which is not blank. */
  lemma {:induction false} YieldedResolves(j: Json, named: bool, path: Path, text: string, blank: string -> bool)
    requires Tidy(j) && Has(Entries(j, named, blank), path, text)
    ensures DescriptionAt(j, path) == Some(String(text)) && !blank(text)
    decreases Size(j)
  {
    YieldsFromObject(j, named, path, text, blank);
    if path == [] {
      NodePath(j, named, path, text, blank);
      OwnResolves(j, text, blank);
    } else if OptionYields(UnionOptions(j), 0, path, text, blank) {
      OptionDescribed(j, path, text, blank);
    } else {
      var child := YieldingChild(j, named, path, text, blank);
      YieldedResolves(child, true, path[1..], text, blank);
      ResolvesBelow(j, path, child, text);
    }
  }

  /** So a path is yielded with one text only. */
  lemma YieldedOnce(j: Json, named: bool, path: Path, a: string, b: string, blank: string -> bool)
    requires Tidy(j) && Has(Entries(j, named, blank), path, a) && Has(Entries(j, named, blank), path, b)
    ensures a == b
  {
    YieldedResolves(j, named, path, a, blank);
    YieldedResolves(j, named, path, b, blank);
  }

  // ----- setting a yielded path changes that entry and no other -----

  /** Renaming in every part is renaming in the whole. */
  lemma JoinParts(j: Json, k: Json, named: bool, path: Path, text: string, blank: string -> bool)
    requires j.Object? && k.Object?
    requires Own(k, named, blank) == Renamed(Own(j, named, blank), path, text)
    requires Opts(k, named, blank) == Renamed(Opts(j, named, blank), path, text)
    requires PropertyEntries(Properties(k), blank) == Renamed(PropertyEntries(Properties(j), blank), path, text)
    requires Rest(ArrayItems(k), blank) == Renamed(Rest(ArrayItems(j), blank), path, text)
    ensures Entries(k, named, blank) == Renamed(Entries(j, named, blank), path, text)
  {
    EntriesInParts(j, named, blank);
    EntriesInParts(k, named, blank);
    var a, b, c, d := Own(j, named, blank), Opts(j, named, blank), PropertyEntries(Properties(j), blank),
                      Rest(ArrayItems(j), blank);
    RenamedConcat(a, b + (c + d), path, text);
    RenamedConcat(b, c + d, path, text);
    RenamedConcat(c, d, path, text);
  }

  /** A part that a path does not lead into keeps its entries. */
  lemma OwnElsewhere(j: Json, named: bool, path: Path, text: string, blank: string -> bool)
    requires path != []
    ensures Renamed(Own(j, named, blank), path, text) == Own(j, named, blank)
  {
  }

  lemma OptsElsewhere(j: Json, named: bool, path: Path, text: string, blank: string -> bool)
    requires j.Object? && (path == [] || !path[0].Position?)
    ensures Renamed(Opts(j, named, blank), path, text) == Opts(j, named, blank)
  {
    forall t ensures !Has(Opts(j, named, blank), path, t) {
      OptionPath(UnionOptions(j), 0, path, t, blank);
    }
    RenamedElsewhere(Opts(j, named, blank), path, text);
  }

  lemma PropertiesElsewhere(fields: seq<Field>, path: Path, text: string, blank: string -> bool)
    requires forall m :: 0 <= m < |fields| ==> path == [] || path[0] != Name(fields[m].name)
    ensures Renamed(PropertyEntries(fields, blank), path, text) == PropertyEntries(fields, blank)
  {
    forall t ensures !Has(PropertyEntries(fields, blank), path, t) {
      PropertyPath(fields, path, t, blank);
    }
    RenamedElsewhere(PropertyEntries(fields, blank), path, text);
  }

  lemma RestElsewhere(items: Option<Json>, path: Path, text: string, blank: string -> bool)
    requires path == [] || path[0] != ITEMS
    ensures Renamed(Rest(items, blank), path, text) == Rest(items, blank)
  {
    forall t ensures !Has(Rest(items, blank), path, t) {
      RestPath(items, path, t, blank);
    }
    RenamedElsewhere(Rest(items, blank), path, text);
  }

  /** A node that agrees on type, properties and items iterates the same properties and items. */
  lemma SameShape(j: Json, k: Json)
    requires j.Object? && k.Object?
    requires Get(k.fields, "type") == Get(j.fields, "type")
    requires Get(k.fields, "properties") == Get(j.fields, "properties")
    requires Get(k.fields, "items") == Get(j.fields, "items")
    ensures Properties(k) == Properties(j) && ArrayItems(k) == ArrayItems(j)
    ensures Tidy(j) ==> Tidy(k)
  {
  }

  lemma TidyNames(fields: seq<Field>, path: Path)
    requires TidyFields(fields) && (path == [] || !path[0].Name? || path[0] == ITEMS)
    ensures forall m :: 0 <= m < |fields| ==> path == [] || path[0] != Name(fields[m].name)
  {
    forall m | 0 <= m < |fields| ensures path == [] || path[0] != Name(fields[m].name) {
      TidyAt(fields, m);
    }
  }

  /** Describing a node changes nothing else that the iterator looks at. */
  lemma DescribedShape(j: Json, text: string)
    requires j.Object?
    ensures var k := WithDescription(j, text);
      && UnionOptions(k) == UnionOptions(j) && Properties(k) == Properties(j) && ArrayItems(k) == ArrayItems(j)
      && Described(k) == Some(String(text)) && (Tidy(j) ==> Tidy(k))
  {
    PutFinds(j.fields, "description", String(text), "type");
    PutFinds(j.fields, "description", String(text), "properties");
    PutFinds(j.fields, "description", String(text), "items");
    PutFinds(j.fields, "description", String(text), "anyOf");
    PutFinds(j.fields, "description", String(text), "oneOf");
    PutFinds(j.fields, "description", String(text), "description");
    SameShape(j, WithDescription(j, text));
  }

  lemma OwnRenamed(j: Json, k: Json, text: string, blank: string -> bool)
    requires j.Object? && k.Object? && !blank(text) && Text(j, blank).Some? && Described(k) == Some(String(text))
    ensures Own(k, true, blank) == Renamed(Own(j, true, blank), [], text)
  {
  }

  lemma OwnEntryRenamed(j: Json, k: Json, text: string, blank: string -> bool)
    requires j.Object? && k.Object? && Tidy(j) && !blank(text) && Text(j, blank).Some?
    requires UnionOptions(k) == UnionOptions(j) && Properties(k) == Properties(j) && ArrayItems(k) == ArrayItems(j)
    requires Described(k) == Some(String(text))
    ensures Entries(k, true, blank) == Renamed(Entries(j, true, blank), [], text)
  {
    OwnRenamed(j, k, text, blank);
    OptsElsewhere(j, true, [], text, blank);
    TidyNames(Properties(j), []);
    PropertiesElsewhere(Properties(j), [], text, blank);
    RestElsewhere(ArrayItems(j), [], text, blank);
    JoinParts(j, k, true, [], text, blank);
  }

  lemma SetOwn(j: Json, text: string, blank: string -> bool)
    requires j.Object? && Tidy(j) && !blank(text) && Text(j, blank).Some?
    ensures Tidy(WithDescription(j, text))
    ensures Entries(WithDescription(j, text), true, blank) == Renamed(Entries(j, true, blank), [], text)
  {
    DescribedShape(j, text);
    OwnEntryRenamed(j, WithDescription(j, text), text, blank);
  }

  lemma OptionEntryRenamed(option: Json, at: nat, text: string, blank: string -> bool)
    requires IsConst(option) && Text(option, blank).Some? && !blank(text)
    ensures OptionEntry(WithDescription(option, text), at, blank) ==
            Renamed(OptionEntry(option, at, blank), [Position(at)], text)
  {
    DescriptionKeepsChildren(option, text, ITEMS);
  }

  lemma OptionEntryKept(option: Json, at: nat, n: nat, text: string, blank: string -> bool)
    requires n != at
    ensures Renamed(OptionEntry(option, at, blank), [Position(n)], text) == OptionEntry(option, at, blank)
  {
    assert [Position(n)][0] != [Position(at)][0];
  }

  // Entries of items in order, whatever the items are.

  type Lister<!T> = (T, nat) -> seq<Entry>

  function Listed<T>(items: seq<T>, at: nat, entry: Lister<T>): seq<Entry> {
    if items == [] then [] else entry(items[0], at) + Listed(items[1..], at + 1, entry)
  }

  /** Two sequences of entries, one renamed from the other, behind renamed ones. */
  lemma JoinRenamed(a: seq<Entry>, a': seq<Entry>, b: seq<Entry>, b': seq<Entry>, path: Path, text: string)
    requires a' == Renamed(a, path, text) && b' == Renamed(b, path, text)
    ensures a' + b' == Renamed(a + b, path, text)
  {
    RenamedConcat(a, b, path, text);
  }

  /** Replacing one item by a renamed one renames the list. */
  lemma {:induction false} ListedRenamed<T>(items: seq<T>, put: seq<T>, at: nat, entry: Lister<T>, path: Path,
                                            text: string)
    requires |put| == |items|
    requires forall i :: 0 <= i < |items| ==> entry(put[i], at + i) == Renamed(entry(items[i], at + i), path, text)
    ensures Listed(put, at, entry) == Renamed(Listed(items, at, entry), path, text)
    decreases |items|
  {
    if items != [] {
      var rest, later := items[1..], put[1..];
      forall i | 0 <= i < |rest| ensures entry(later[i], at + 1 + i) == Renamed(entry(rest[i], at + 1 + i), path, text) {
        assert entry(put[i + 1], at + (i + 1)) == Renamed(entry(items[i + 1], at + (i + 1)), path, text);
      }
      ListedRenamed(rest, later, at + 1, entry, path, text);
      assert entry(put[0], at + 0) == Renamed(entry(items[0], at + 0), path, text);
      JoinRenamed(entry(items[0], at), entry(put[0], at), Listed(rest, at + 1, entry), Listed(later, at + 1, entry),
                  path, text);
    }
  }

  function OptionLister(blank: string -> bool): Lister<Json> {
    (option: Json, at: nat) => OptionEntry(option, at, blank)
  }

  lemma {:induction false} OptionsListed(options: seq<Json>, at: nat, blank: string -> bool)
    ensures OptionEntries(options, at, blank) == Listed(options, at, OptionLister(blank))
    decreases |options|
  {
    if options != [] {
      OptionsListed(options[1..], at + 1, blank);
    }
  }

  lemma OptionShape(j: Json, i: nat, c: Json)
    requires j.Object? && Child(j, Position(i)).Some?
    ensures var k := WithChild(j, Position(i), c);
      && UnionOptions(k) == UnionOptions(j)[i := c] && Described(k) == Described(j)
      && Properties(k) == Properties(j) && ArrayItems(k) == ArrayItems(j) && (Tidy(j) ==> Tidy(k))
  {
    OptionReplaced(j, i, c);
    var (keyword, options) := NewOptions(j, i, c);
    PutFinds(j.fields, keyword, Array(options), "type");
    PutFinds(j.fields, keyword, Array(options), "properties");
    PutFinds(j.fields, keyword, Array(options), "items");
    PutFinds(j.fields, keyword, Array(options), "description");
    SameShape(j, WithChild(j, Position(i), c));
  }

  lemma SetOptionIs(j: Json, path: Path, was: string, text: string, blank: string -> bool)
    requires j.Object? && OptionYields(UnionOptions(j), 0, path, was, blank)
    ensures Child(j, path[0]).Some? && Lookup(j, path).Some?
    ensures SetAt(j, path, text) == WithChild(j, path[0], WithDescription(UnionOptions(j)[path[0].index], text))
  {
    OptionDescribed(j, path, was, blank);
    assert path[1..] == [];
    assert SetAt(UnionOptions(j)[path[0].index], path[1..], text)
           == WithDescription(UnionOptions(j)[path[0].index], text);
  }

  lemma OwnFollows(j: Json, k: Json, blank: string -> bool)
    requires Described(k) == Described(j)
    ensures Own(k, true, blank) == Own(j, true, blank)
  {
  }

  lemma SetOption(j: Json, path: Path, was: string, text: string, blank: string -> bool)
    requires j.Object? && Tidy(j) && !blank(text) && OptionYields(UnionOptions(j), 0, path, was, blank)
    ensures Lookup(j, path).Some? && Tidy(SetAt(j, path, text))
    ensures Entries(SetAt(j, path, text), true, blank) == Renamed(Entries(j, true, blank), path, text)
  {
    SetOptionIs(j, path, was, text, blank);
    assert path == [Position(path[0].index)];
    JoinOption(j, path[0].index, text, blank);
  }

  lemma JoinOption(j: Json, i: nat, text: string, blank: string -> bool)
    requires j.Object? && Tidy(j) && Child(j, Position(i)).Some? && !blank(text)
    requires Text(UnionOptions(j)[i], blank).Some?
    ensures var k := WithChild(j, Position(i), WithDescription(UnionOptions(j)[i], text));
      Tidy(k) && Entries(k, true, blank) == Renamed(Entries(j, true, blank), [Position(i)], text)
  {
    var c := WithDescription(UnionOptions(j)[i], text);
    var k := WithChild(j, Position(i), c);
    var path := [Position(i)];
    OptionShape(j, i, c);
    OptsRenamed(j, k, i, text, blank);
    JoinOptions(j, k, path, text, blank);
  }

  lemma OptsRenamed(j: Json, k: Json, i: nat, text: string, blank: string -> bool)
    requires j.Object? && k.Object? && i < |UnionOptions(j)| && IsConst(UnionOptions(j)[i]) && !blank(text)
    requires Text(UnionOptions(j)[i], blank).Some?
    requires UnionOptions(k) == UnionOptions(j)[i := WithDescription(UnionOptions(j)[i], text)]
    ensures Opts(k, true, blank) == Renamed(Opts(j, true, blank), [Position(i)], text)
  {
    OneOptionRenamed(UnionOptions(j), UnionOptions(k), i, text, blank);
  }

  lemma OneOptionRenamed(us: seq<Json>, vs: seq<Json>, i: nat, text: string, blank: string -> bool)
    requires i < |us| && IsConst(us[i]) && Text(us[i], blank).Some? && !blank(text)
    requires vs == us[i := WithDescription(us[i], text)]
    ensures OptionEntries(vs, 0, blank) == Renamed(OptionEntries(us, 0, blank), [Position(i)], text)
  {
    var at: nat := 0;
    OptionsListed(us, at, blank);
    OptionsListed(vs, at, blank);
    var entry := OptionLister(blank);
    forall n | 0 <= n < |us| ensures entry(vs[n], at + n) == Renamed(entry(us[n], at + n), [Position(i)], text) {
      if n == i {
        OptionEntryRenamed(us[n], n, text, blank);
      } else {
        OptionEntryKept(us[n], n, i, text, blank);
      }
    }
    ListedRenamed(us, vs, at, entry, [Position(i)], text);
  }

  lemma JoinOptions(j: Json, k: Json, path: Path, text: string, blank: string -> bool)
    requires j.Object? && Tidy(j) && k.Object? && path != [] && path[0].Position?
    requires Described(k) == Described(j) && Properties(k) == Properties(j) && ArrayItems(k) == ArrayItems(j)
    requires Opts(k, true, blank) == Renamed(Opts(j, true, blank), path, text)
    ensures Entries(k, true, blank) == Renamed(Entries(j, true, blank), path, text)
  {
    OwnFollows(j, k, blank);
    OwnElsewhere(j, true, path, text, blank);
    TidyShape(j);
    TidyNames(Properties(j), path);
    PropertiesElsewhere(Properties(j), path, text, blank);
    RestElsewhere(ArrayItems(j), path, text, blank);
    JoinParts(j, k, true, path, text, blank);
  }

  lemma {:induction false} PropertyRenamed(fields: seq<Field>, m: nat, c: Json, path: Path, text: string,
                                           blank: string -> bool)
    requires m < |fields| && DistinctNames(fields) && path != [] && path[0] == Name(fields[m].name)
    requires Entries(c, true, blank) == Renamed(Entries(fields[m].value, true, blank), path[1..], text)
    ensures PropertyEntries(fields[m := Field(fields[m].name, c)], blank)
            == Renamed(PropertyEntries(fields, blank), path, text)
    decreases |fields|
  {
    var put := fields[m := Field(fields[m].name, c)];
    var step := Name(fields[0].name);
    var es := Entries(fields[0].value, true, blank);
    var others := PropertyEntries(fields[1..], blank);
    RenamedConcat(Prepend(step, es), others, path, text);
    if m == 0 {
      assert put[1..] == fields[1..];
      RenamedPrepended(step, es, path, text);
      forall n | 0 <= n < |fields[1..]| ensures path[0] != Name(fields[1..][n].name) {
        assert fields[n + 1].name != fields[0].name;
      }
      PropertiesElsewhere(fields[1..], path, text, blank);
    } else {
      assert put[1..] == fields[1..][m - 1 := Field(fields[m].name, c)];
      PropertyRenamed(fields[1..], m - 1, c, path, text, blank);
      assert fields[0].name != fields[m].name;
      forall t ensures !Has(Prepend(step, es), path, t) {
        InPrepended(step, es, path, t);
      }
      RenamedElsewhere(Prepend(step, es), path, text);
    }
  }

  lemma PropertyShape(j: Json, m: nat, c: Json)
    requires j.Object? && Tidy(j) && c.Object?
    requires m < |Properties(j)| && Properties(j)[m].value.Object?
    ensures Child(j, Name(Properties(j)[m].name)).Some?
    ensures var k := WithChild(j, Name(Properties(j)[m].name), c);
      && Properties(k) == Properties(j)[m := Field(Properties(j)[m].name, c)]
      && ArrayItems(k) == ArrayItems(j) && UnionOptions(k) == UnionOptions(j) && Described(k) == Described(j)
  {
    PropertyIsChild(j, m);
    var name := Properties(j)[m].name;
    var props := Object(Put(Properties(j), name, c));
    assert WithChild(j, Name(name), c) == Object(Put(j.fields, "properties", props));
    PutFinds(j.fields, "properties", props, "type");
    PutFinds(j.fields, "properties", props, "properties");
    PutFinds(j.fields, "properties", props, "items");
    PutFinds(j.fields, "properties", props, "description");
    PutFinds(j.fields, "properties", props, "anyOf");
    PutFinds(j.fields, "properties", props, "oneOf");
  }

  lemma ItemsShape(j: Json, c: Json)
    requires j.Object? && c.Object? && ArrayItems(j).Some?
    ensures Child(j, ITEMS).Some?
    ensures var k := WithChild(j, ITEMS, c);
      && Properties(k) == Properties(j) && ArrayItems(k) == Some(c)
      && UnionOptions(k) == UnionOptions(j) && Described(k) == Described(j)
  {
    assert WithChild(j, ITEMS, c) == Object(Put(j.fields, "items", c));
    PutFinds(j.fields, "items", c, "type");
    PutFinds(j.fields, "items", c, "properties");
    PutFinds(j.fields, "items", c, "items");
    PutFinds(j.fields, "items", c, "description");
    PutFinds(j.fields, "items", c, "anyOf");
    PutFinds(j.fields, "items", c, "oneOf");
  }

  /** Tidiness in terms of what is iterated. */
  lemma TidyShape(j: Json)
    requires j.Object?
    ensures Tidy(j) <==> DistinctNames(Properties(j)) && TidyFields(Properties(j))
                         && (ArrayItems(j).Some? ==> Tidy(ArrayItems(j).value))
  {
  }

  /** Own description and options follow the fields they are read from. */
  lemma SameNode(j: Json, k: Json, named: bool, blank: string -> bool)
    requires j.Object? && k.Object? && UnionOptions(k) == UnionOptions(j) && Described(k) == Described(j)
    ensures Own(k, named, blank) == Own(j, named, blank) && Opts(k, named, blank) == Opts(j, named, blank)
  {
  }

  lemma SameNamesDistinct(a: seq<Field>, b: seq<Field>)
    requires DistinctNames(a) && |a| == |b| && forall i :: 0 <= i < |a| ==> a[i].name == b[i].name
    ensures DistinctNames(b)
  {
  }

  lemma SetProperty(j: Json, named: bool, m: nat, c: Json, path: Path, text: string, blank: string -> bool)
    requires j.Object? && Tidy(j) && c.Object? && Tidy(c)
    requires m < |Properties(j)| && Properties(j)[m].value.Object?
    requires path != [] && path[0] == Name(Properties(j)[m].name)
    requires Entries(c, true, blank) == Renamed(Entries(Properties(j)[m].value, true, blank), path[1..], text)
    ensures Child(j, path[0]).Some? && Tidy(WithChild(j, path[0], c))
    ensures Entries(WithChild(j, path[0], c), named, blank) == Renamed(Entries(j, named, blank), path, text)
  {
    PropertyShape(j, m, c);
    var k := WithChild(j, path[0], c);
    TidyPut(Properties(j), m, c);
    SameNamesDistinct(Properties(j), Properties(k));
    TidyShape(j);
    TidyShape(k);
    TidyAt(Properties(j), m);
    PropertyRenamed(Properties(j), m, c, path, text, blank);
    OwnElsewhere(j, named, path, text, blank);
    OptsElsewhere(j, named, path, text, blank);
    RestElsewhere(ArrayItems(j), path, text, blank);
    SameNode(j, k, named, blank);
    JoinParts(j, k, named, path, text, blank);
  }

  lemma SetItems(j: Json, named: bool, c: Json, path: Path, text: string, blank: string -> bool)
    requires j.Object? && Tidy(j) && c.Object? && Tidy(c) && ArrayItems(j).Some?
    requires path != [] && path[0] == ITEMS
    requires Entries(c, true, blank) == Renamed(Entries(ArrayItems(j).value, true, blank), path[1..], text)
    ensures Child(j, path[0]).Some? && Tidy(WithChild(j, path[0], c))
    ensures Entries(WithChild(j, path[0], c), named, blank) == Renamed(Entries(j, named, blank), path, text)
  {
    ItemsShape(j, c);
    var k := WithChild(j, path[0], c);
    TidyShape(j);
    TidyShape(k);
    RenamedPrepended(ITEMS, Entries(ArrayItems(j).value, true, blank), path, text);
    OwnElsewhere(j, named, path, text, blank);
    OptsElsewhere(j, named, path, text, blank);
    TidyNames(Properties(j), path);
    PropertiesElsewhere(Properties(j), path, text, blank);
    SameNode(j, k, named, blank);
    JoinParts(j, k, named, path, text, blank);
  }

  /** Setting a text that is not blank at a yielded path changes exactly that entry of the
      next iteration, in place. */
  lemma {:induction false} SetThenIterate(j: Json, named: bool, path: Path, was: string, text: string,
                                          blank: string -> bool)
    requires Tidy(j) && !blank(text) && Has(Entries(j, named, blank), path, was)
    ensures Lookup(j, path).Some? && Tidy(SetAt(j, path, text))
    ensures Entries(SetAt(j, path, text), named, blank) == Renamed(Entries(j, named, blank), path, text)
    decreases Size(j)
  {
    YieldsFromObject(j, named, path, was, blank);
    YieldedResolves(j, named, path, was, blank);
    NodePath(j, named, path, was, blank);
    if path == [] {
      SetOwn(j, text, blank);
    } else if named && OptionYields(UnionOptions(j), 0, path, was, blank) {
      SetOption(j, path, was, text, blank);
    } else if PropertyYields(Properties(j), path, was, blank) {
      var m := PropertyOf(j, path, was, blank);
      SetThenIterate(Properties(j)[m].value, true, path[1..], was, text, blank);
      SetProperty(j, named, m, SetAt(Properties(j)[m].value, path[1..], text), path, text, blank);
    } else {
      ItemsOf(j, path, was, blank);
      SetThenIterate(ArrayItems(j).value, true, path[1..], was, text, blank);
      SetItems(j, named, SetAt(ArrayItems(j).value, path[1..], text), path, text, blank);
    }
  }
}
