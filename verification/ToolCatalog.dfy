/** Collecting a tool's described paths and applying a candidate to all of them. */
module ToolCatalog {
  import opened Options
  import opened Schemas
  import opened SchemaLens
  import opened PathKeys

  // ----- the iterator with its path argument -----

  function Under(base: Path, es: seq<Entry>): (r: seq<Entry>)
    ensures |r| == |es| && forall i :: 0 <= i < |es| ==> r[i] == Entry(base + es[i].path, es[i].text)
  {
    if es == [] then [] else [Entry(base + es[0].path, es[0].text)] + Under(base, es[1..])
  }

  function IterateOptions(options: seq<Json>, at: nat, base: Path, blank: string -> bool): seq<Entry> {
    if options == [] then []
    else
      (if IsConst(options[0]) && Text(options[0], blank).Some?
       then [Entry(base + [Position(at)], Text(options[0], blank).value)] else [])
      + IterateOptions(options[1..], at + 1, base, blank)
  }

  /** The iterator as it is called: every path is built from the path so far. */
  function Iterate(j: Json, base: Path, blank: string -> bool): seq<Entry>
    decreases Size(j), 1
  {
    if !j.Object? then []
    else
      GetSmaller(j.fields, "properties");
      GetSmaller(j.fields, "items");
      (if base != [] && Text(j, blank).Some? then [Entry(base, Text(j, blank).value)] else [])
      + ((if base != [] then IterateOptions(UnionOptions(j), 0, base, blank) else [])
         + (IterateProperties(Properties(j), base, blank)
            + (if ArrayItems(j).Some? then Iterate(ArrayItems(j).value, base + [ITEMS], blank) else [])))
  }

  function IterateProperties(fields: seq<Field>, base: Path, blank: string -> bool): seq<Entry>
    decreases FieldsSize(fields), 2, |fields|
  {
    if fields == [] then []
    else
      assert Size(fields[0].value) <= FieldsSize(fields);
      Iterate(fields[0].value, base + [Name(fields[0].name)], blank) + IterateProperties(fields[1..], base, blank)
  }

  lemma UnderConcat(base: Path, a: seq<Entry>, b: seq<Entry>)
    ensures Under(base, a + b) == Under(base, a) + Under(base, b)
  {
  }

  lemma UnderPrepended(base: Path, s: Step, es: seq<Entry>)
    ensures Under(base, Prepend(s, es)) == Under(base + [s], es)
  {
    assert forall i :: 0 <= i < |es| ==> base + ([s] + es[i].path) == (base + [s]) + es[i].path;
  }

  lemma {:induction false} OptionsUnder(options: seq<Json>, at: nat, base: Path, blank: string -> bool)
    ensures IterateOptions(options, at, base, blank) == Under(base, OptionEntries(options, at, blank))
  {
    if options != [] {
      OptionsUnder(options[1..], at + 1, base, blank);
      var first := if IsConst(options[0]) && Text(options[0], blank).Some?
                   then [Entry([Position(at)], Text(options[0], blank).value)] else [];
      UnderConcat(base, first, OptionEntries(options[1..], at + 1, blank));
    }
  }

  lemma {:induction false} PropertiesUnder(fields: seq<Field>, base: Path, blank: string -> bool)
    ensures IterateProperties(fields, base, blank) == Under(base, PropertyEntries(fields, blank))
    decreases FieldsSize(fields), 2, |fields|
  {
    if fields != [] {
      assert Size(fields[0].value) <= FieldsSize(fields);
      var step := Name(fields[0].name);
      var es := Entries(fields[0].value, true, blank);
      IterateIsEntries(fields[0].value, base + [step], blank);
      PropertiesUnder(fields[1..], base, blank);
      UnderPrepended(base, step, es);
      UnderConcat(base, Prepend(step, es), PropertyEntries(fields[1..], blank));
    }
  }

  lemma OwnUnder(j: Json, base: Path, blank: string -> bool)
    ensures Under(base, Own(j, base != [], blank)) ==
            if base != [] && Text(j, blank).Some? then [Entry(base, Text(j, blank).value)] else []
  {
    assert base + [] == base;
  }

  lemma UnderFour(base: Path, a: seq<Entry>, b: seq<Entry>, c: seq<Entry>, d: seq<Entry>)
    ensures Under(base, a + (b + (c + d))) == Under(base, a) + (Under(base, b) + (Under(base, c) + Under(base, d)))
  {
    UnderConcat(base, a, b + (c + d));
    UnderConcat(base, b, c + d);
    UnderConcat(base, c, d);
  }

  /** Building paths downwards gives the same entries as putting steps in front on the way up. */
  lemma {:induction false} IterateIsEntries(j: Json, base: Path, blank: string -> bool)
    ensures Iterate(j, base, blank) == Under(base, Entries(j, base != [], blank))
    decreases Size(j), 1
  {
    if j.Object? {
      GetSmaller(j.fields, "properties");
      GetSmaller(j.fields, "items");
      OwnUnder(j, base, blank);
      OptionsUnder(UnionOptions(j), 0, base, blank);
      PropertiesUnder(Properties(j), base, blank);
      if ArrayItems(j).Some? {
        IterateIsEntries(ArrayItems(j).value, base + [ITEMS], blank);
        UnderPrepended(base, ITEMS, Entries(ArrayItems(j).value, true, blank));
      }
      EntriesInParts(j, base != [], blank);
      UnderFour(base, Own(j, base != [], blank), Opts(j, base != [], blank), PropertyEntries(Properties(j), blank),
                Rest(ArrayItems(j), blank));
    }
  }

  // ----- applying texts to paths -----

  /** Set every text in turn. */
  function Apply(j: Json, updates: seq<Entry>): Json
    decreases |updates|
  {
    if updates == [] then j else Apply(SetDescription(j, updates[0].path, updates[0].text).0, updates[1..])
  }

  /** The text an update list gives a path; the last one counts. */
  function TextFor(updates: seq<Entry>, path: Path): Option<string> {
    if updates == [] then None
    else
      var later := TextFor(updates[1..], path);
      if later.Some? then later else if updates[0].path == path then Some(updates[0].text) else None
  }

  ghost predicate AllResolve(j: Json, updates: seq<Entry>) {
    forall i :: 0 <= i < |updates| ==> Lookup(j, updates[i].path).Some?
  }

  lemma SetDescriptionReads(j: Json, p: Path, text: string, q: Path)
    requires Lookup(j, p).Some? && Lookup(j, q).Some?
    ensures var k := SetDescription(j, p, text).0;
      Lookup(k, q).Some? && DescriptionAt(k, q) == if p == q then Some(String(text)) else DescriptionAt(j, q)
  {
    SetThenRead(j, p, text, q);
  }

  /** After a whole candidate is applied, parents and children included, every path reads as
      the candidate's text or, without one, as before. */
  lemma {:induction false} ApplyThenRead(j: Json, updates: seq<Entry>, path: Path)
    requires AllResolve(j, updates) && Lookup(j, path).Some?
    ensures Lookup(Apply(j, updates), path).Some?
    ensures DescriptionAt(Apply(j, updates), path) ==
            if TextFor(updates, path).Some? then Some(String(TextFor(updates, path).value)) else DescriptionAt(j, path)
    decreases |updates|
  {
    if updates != [] {
      var u := updates[0];
      var k := SetDescription(j, u.path, u.text).0;
      SetDescriptionReads(j, u.path, u.text, path);
      assert AllResolve(j, updates[1..]);
      StillResolve(j, u, updates[1..]);
      ApplyThenRead(k, updates[1..], path);
    }
  }

  lemma {:induction false} ApplyConcat(j: Json, a: seq<Entry>, b: seq<Entry>)
    ensures Apply(j, a + b) == Apply(Apply(j, a), b)
    decreases |a|
  {
    if a == [] {
      assert a + b == b;
    } else {
      assert (a + b)[1..] == a[1..] + b;
      ApplyConcat(SetDescription(j, a[0].path, a[0].text).0, a[1..], b);
    }
  }

  lemma StillResolve(j: Json, u: Entry, updates: seq<Entry>)
    requires Lookup(j, u.path).Some? && AllResolve(j, updates)
    ensures AllResolve(SetDescription(j, u.path, u.text).0, updates)
  {
    forall i | 0 <= i < |updates| ensures Lookup(SetDescription(j, u.path, u.text).0, updates[i].path).Some? {
      SetDescriptionReads(j, u.path, u.text, updates[i].path);
    }
  }

  /** Two updates of different paths can trade places anywhere in the list. */
  lemma UpdatesTradePlaces(j: Json, before: seq<Entry>, x: Entry, y: Entry, after: seq<Entry>)
    requires AllResolve(j, before) && Lookup(j, x.path).Some? && Lookup(j, y.path).Some? && x.path != y.path
    ensures Apply(j, before + ([x, y] + after)) == Apply(j, before + ([y, x] + after))
  {
    ApplyConcat(j, before, [x, y] + after);
    ApplyConcat(j, before, [y, x] + after);
    ApplyThenRead(j, before, x.path);
    ApplyThenRead(j, before, y.path);
    var k := Apply(j, before);
    ApplyTwo(k, x, y, after);
    ApplyTwo(k, y, x, after);
    SetBothCommute(k, x, y);
  }

  lemma ApplyTwo(j: Json, x: Entry, y: Entry, after: seq<Entry>)
    ensures Apply(j, [x, y] + after) ==
            Apply(SetDescription(SetDescription(j, x.path, x.text).0, y.path, y.text).0, after)
  {
    assert ([x, y] + after)[1..] == [y] + after && ([y] + after)[1..] == after;
  }

  lemma SetBothCommute(j: Json, x: Entry, y: Entry)
    requires Lookup(j, x.path).Some? && Lookup(j, y.path).Some? && x.path != y.path
    ensures SetDescription(SetDescription(j, x.path, x.text).0, y.path, y.text).0
            == SetDescription(SetDescription(j, y.path, y.text).0, x.path, x.text).0
  {
    SetThenRead(j, x.path, x.text, y.path);
    SetThenRead(j, y.path, y.text, x.path);
    SetsCommute(j, x.path, x.text, y.path, y.text);
  }

  // ----- a candidate over a catalog -----

  datatype Parameter = Parameter(key: string, path: Path)

  /** The updates that a candidate asks for. */
  function Updates(parameters: seq<Parameter>, candidate: map<string, string>): seq<Entry> {
    if parameters == [] then []
    else
      (if parameters[0].key in candidate then [Entry(parameters[0].path, candidate[parameters[0].key])] else [])
      + Updates(parameters[1..], candidate)
  }

  lemma {:induction false} UpdatesAppend(parameters: seq<Parameter>, p: Parameter, candidate: map<string, string>)
    ensures Updates(parameters + [p], candidate) ==
            Updates(parameters, candidate) + if p.key in candidate then [Entry(p.path, candidate[p.key])] else []
  {
    if parameters != [] {
      assert (parameters + [p])[1..] == parameters[1..] + [p];
      UpdatesAppend(parameters[1..], p, candidate);
    }
  }

  lemma {:induction false} ApplyAppend(j: Json, updates: seq<Entry>, u: Entry)
    ensures Apply(j, updates + [u]) == SetDescription(Apply(j, updates), u.path, u.text).0
    decreases |updates|
  {
    if updates == [] {
      assert updates + [u] == [u] && [u][1..] == [];
    } else {
      assert (updates + [u])[1..] == updates[1..] + [u];
      ApplyAppend(SetDescription(j, updates[0].path, updates[0].text).0, updates[1..], u);
    }
  }

  /** Rewrite a copied schema, parameter by parameter; the flag says whether to keep the copy. */
  method ApplyCandidate(schema: Json, parameters: seq<Parameter>, candidate: map<string, string>)
    returns (result: Json, changed: bool)
    ensures result == Apply(schema, Updates(parameters, candidate))
    ensures !changed ==> result == schema
  {
    result, changed := schema, false;
    var i := 0;
    while i < |parameters|
      invariant 0 <= i <= |parameters|
      invariant result == Apply(schema, Updates(parameters[..i], candidate))
      invariant !changed ==> result == schema
    {
      var p := parameters[i];
      assert parameters[..i + 1] == parameters[..i] + [p];
      UpdatesAppend(parameters[..i], p, candidate);
      if p.key in candidate {
        ApplyAppend(schema, Updates(parameters[..i], candidate), Entry(p.path, candidate[p.key]));
        var next := SetDescription(result, p.path, candidate[p.key]);
        result := next.0;
        changed := changed || next.1;
      } else {
        assert Updates(parameters[..i], candidate) + [] == Updates(parameters[..i], candidate);
      }
      i := i + 1;
    }
    assert parameters[..i] == parameters;
  }

  /** Assign a key in an ordered dict: a key that is there keeps its place. */
  function Assign(parameters: seq<Parameter>, key: string, path: Path): seq<Parameter> {
    if parameters == [] then [Parameter(key, path)]
    else if parameters[0].key == key then [Parameter(key, path)] + parameters[1..]
    else [parameters[0]] + Assign(parameters[1..], key, path)
  }

  predicate AllPrintable(es: seq<Entry>) {
    forall i :: 0 <= i < |es| ==> Printable(es[i].path)
  }

  predicate AllOrdinary(es: seq<Entry>) {
    forall i :: 0 <= i < |es| ==> OrdinaryPath(es[i].path)
  }

  /** The catalog of a tool: the key of every yielded path, collected in a dict. */
  function Catalog(kind: string, tool: string, es: seq<Entry>): seq<Parameter>
    requires AllPrintable(es)
    decreases |es|
  {
    if es == [] then []
    else
      var e := es[|es| - 1];
      Assign(Catalog(kind, tool, es[..|es| - 1]), PathKey(kind, tool, e.path), e.path)
  }

  lemma {:induction false} AssignKeeps(parameters: seq<Parameter>, key: string, path: Path)
    ensures Parameter(key, path) in Assign(parameters, key, path)
    ensures forall p :: p in Assign(parameters, key, path) ==> p == Parameter(key, path) || p in parameters
    ensures forall p :: p in parameters && p.key != key ==> p in Assign(parameters, key, path)
  {
    if parameters != [] && parameters[0].key != key {
      AssignKeeps(parameters[1..], key, path);
    }
  }

  /** A later entry takes the key of no earlier one, unless it is the same. */
  lemma AssignKeepsOthers(kind: string, tool: string, parameters: seq<Parameter>, path: Path, last: Path)
    requires OrdinaryPath(path) && OrdinaryPath(last)
    requires path == last || Parameter(PathKey(kind, tool, path), path) in parameters
    ensures Parameter(PathKey(kind, tool, path), path) in Assign(parameters, PathKey(kind, tool, last), last)
  {
    AssignKeeps(parameters, PathKey(kind, tool, last), last);
    if PathKey(kind, tool, path) == PathKey(kind, tool, last) {
      KeysInjective(kind, tool, path, last);
    }
  }

  /** With ordinary names no key is taken twice, so the catalog has every yielded path. */
  lemma {:induction false} CatalogComplete(kind: string, tool: string, es: seq<Entry>)
    requires AllOrdinary(es)
    ensures AllPrintable(es)
    ensures forall i :: 0 <= i < |es| ==>
              Parameter(PathKey(kind, tool, es[i].path), es[i].path) in Catalog(kind, tool, es)
    decreases |es|
  {
    if es != [] {
      var before, last := es[..|es| - 1], es[|es| - 1];
      assert AllOrdinary(before) && OrdinaryPath(last.path);
      CatalogComplete(kind, tool, before);
      forall i | 0 <= i < |es|
        ensures Parameter(PathKey(kind, tool, es[i].path), es[i].path) in Catalog(kind, tool, es)
      {
        assert i < |before| ==> es[i] == before[i];
        AssignKeepsOthers(kind, tool, Catalog(kind, tool, before), es[i].path, last.path);
      }
    }
  }

  /** And it has nothing else. */
  lemma {:induction false} CatalogSound(kind: string, tool: string, es: seq<Entry>, p: Parameter)
    requires AllOrdinary(es) && AllPrintable(es) && p in Catalog(kind, tool, es)
    ensures FromEntry(kind, tool, es, p)
    decreases |es|
  {
    var before, last := es[..|es| - 1], es[|es| - 1];
    assert AllOrdinary(before) && AllPrintable(before) && OrdinaryPath(last.path);
    AssignKeeps(Catalog(kind, tool, before), PathKey(kind, tool, last.path), last.path);
    if p in Catalog(kind, tool, before) {
      CatalogSound(kind, tool, before, p);
      var i :| 0 <= i < |before| && before[i].path == p.path;
      assert es[i].path == p.path;
    } else {
      assert es[|es| - 1].path == p.path;
    }
  }

  /** A parameter is the key of an entry's path. */
  predicate FromEntry(kind: string, tool: string, es: seq<Entry>, p: Parameter) {
    OrdinaryPath(p.path) && p.key == PathKey(kind, tool, p.path)
    && exists i :: 0 <= i < |es| && es[i].path == p.path
  }

  lemma {:induction false} UpdatesTextFor(parameters: seq<Parameter>, candidate: map<string, string>, p: Parameter)
    requires p in parameters
    requires forall a, b :: a in parameters && b in parameters && a.path == b.path ==> a.key == b.key
    ensures TextFor(Updates(parameters, candidate), p.path) ==
            if p.key in candidate then Some(candidate[p.key]) else None
    decreases |parameters|
  {
    var first := parameters[0];
    var rest := Updates(parameters[1..], candidate);
    assert first in parameters;
    if first.key in candidate {
      assert Updates(parameters, candidate)[1..] == rest;
    } else {
      assert Updates(parameters, candidate) == rest;
    }
    if exists q :: q in parameters[1..] && q.path == p.path {
      var q :| q in parameters[1..] && q.path == p.path;
      UpdatesTextFor(parameters[1..], candidate, q);
    } else {
      NoTextFor(parameters[1..], candidate, p.path);
      assert p !in parameters[1..];
      assert parameters == [first] + parameters[1..];
    }
  }

  lemma {:induction false} NoTextFor(parameters: seq<Parameter>, candidate: map<string, string>, path: Path)
    requires forall q :: q in parameters ==> q.path != path
    ensures TextFor(Updates(parameters, candidate), path).None?
  {
    if parameters != [] {
      assert parameters[0] in parameters && parameters[0].path != path;
      NoTextFor(parameters[1..], candidate, path);
      if parameters[0].key in candidate {
        assert Updates(parameters, candidate)[1..] == Updates(parameters[1..], candidate);
      } else {
        assert Updates(parameters, candidate) == Updates(parameters[1..], candidate);
      }
    }
  }

  lemma {:induction false} UpdatesFromParameters(parameters: seq<Parameter>, candidate: map<string, string>)
    ensures forall u :: u in Updates(parameters, candidate) ==> exists p :: p in parameters && p.path == u.path
  {
    if parameters != [] {
      UpdatesFromParameters(parameters[1..], candidate);
      forall u | u in Updates(parameters, candidate) ensures exists p :: p in parameters && p.path == u.path {
        if u in Updates(parameters[1..], candidate) {
          var p :| p in parameters[1..] && p.path == u.path;
          assert p in parameters;
        } else {
          assert parameters[0] in parameters && parameters[0].path == u.path;
        }
      }
    }
  }

  /** Applying a candidate over a tool's own catalog: every yielded path then reads as the
      candidate's text for its key, or as its old text. */
  lemma CandidateLands(j: Json, kind: string, tool: string, candidate: map<string, string>, e: Entry,
                       blank: string -> bool)
    requires Tidy(j) && e in Entries(j, false, blank) && AllOrdinary(Entries(j, false, blank))
    ensures AllPrintable(Entries(j, false, blank)) && Printable(e.path)
    ensures var parameters := Catalog(kind, tool, Entries(j, false, blank));
      var key := PathKey(kind, tool, e.path);
      DescriptionAt(Apply(j, Updates(parameters, candidate)), e.path) ==
      Some(String(if key in candidate then candidate[key] else e.text))
  {
    var es := Entries(j, false, blank);
    assert forall i :: 0 <= i < |es| ==> OrdinaryPath(es[i].path);
    var parameters := Catalog(kind, tool, es);
    var updates := Updates(parameters, candidate);
    CatalogComplete(kind, tool, es);
    forall p | p in parameters ensures FromEntry(kind, tool, es, p) {
      CatalogSound(kind, tool, es, p);
    }
    var at :| 0 <= at < |es| && es[at] == e;
    UpdatesTextFor(parameters, candidate, Parameter(PathKey(kind, tool, e.path), e.path));
    UpdatesFromParameters(parameters, candidate);
    forall n | 0 <= n < |updates| ensures Lookup(j, updates[n].path).Some? {
      assert updates[n] in updates;
      var p :| p in parameters && p.path == updates[n].path;
      assert FromEntry(kind, tool, es, p);
      var m :| 0 <= m < |es| && es[m].path == p.path;
      assert es[m] in es;
      YieldedResolves(j, false, es[m].path, es[m].text, blank);
    }
    YieldedResolves(j, false, e.path, e.text, blank);
    ApplyThenRead(j, updates, e.path);
  }

  /** ... so whatever the schema describes, wherever the iterator may go, is under its own key and
      reads as the candidate says. */
  lemma EveryDescriptionLands(j: Json, kind: string, tool: string, candidate: map<string, string>, path: Path,
                              text: string, blank: string -> bool)
    requires Dicts(j) && Tidy(j) && AllOrdinary(Entries(j, false, blank)) && Describes(j, false, path, text, blank)
    ensures AllPrintable(Entries(j, false, blank)) && Printable(path)
    ensures var parameters := Catalog(kind, tool, Entries(j, false, blank));
      var key := PathKey(kind, tool, path);
      && Parameter(key, path) in parameters
      && DescriptionAt(Apply(j, Updates(parameters, candidate)), path) ==
         Some(String(if key in candidate then candidate[key] else text))
  {
    YieldedExactly(j, false, path, text, blank);
    var es := Entries(j, false, blank);
    var e := Entry(path, text);
    assert forall i :: 0 <= i < |es| ==> OrdinaryPath(es[i].path);
    CandidateLands(j, kind, tool, candidate, e, blank);
    CatalogComplete(kind, tool, es);
    var at :| 0 <= at < |es| && es[at] == e;
  }
}
