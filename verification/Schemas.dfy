/** JSON schemas and the descriptions inside them.

    A JSON object keeps its fields in order; a Python dict has no two fields of one name. */
module Schemas {
  import opened Options

  datatype Json =
    | Null
    | Boolean(b: bool)
    | Number(n: int)
    | String(s: string)
    | Array(items: seq<Json>)
    | Object(fields: seq<Field>)

  datatype Field = Field(name: string, value: Json)

  /** One step of a path: a name, where "[]" means the items of an array, or the position of a
      const option of a union. */
  datatype Step = Name(name: string) | Position(index: nat)

  type Path = seq<Step>

  const ITEMS := Name("[]")

  // ----- fields -----

  function Find(fields: seq<Field>, name: string): (r: Option<nat>)
    ensures r.Some? ==> r.value < |fields| && fields[r.value].name == name
                        && forall i :: 0 <= i < r.value ==> fields[i].name != name
    ensures r.None? ==> forall i :: 0 <= i < |fields| ==> fields[i].name != name
  {
    if fields == [] then None
    else if fields[0].name == name then Some(0)
    else
      var rest := Find(fields[1..], name);
      if rest.None? then None else Some(rest.value + 1)
  }

  function Get(fields: seq<Field>, name: string): Option<Json> {
    var i := Find(fields, name);
    if i.None? then None else Some(fields[i.value].value)
  }

  /** Assign a field, as a dict does: in place, or at the end. */
  function Put(fields: seq<Field>, name: string, value: Json): seq<Field> {
    var i := Find(fields, name);
    if i.None? then fields + [Field(name, value)] else fields[i.value := Field(name, value)]
  }

  lemma FindIs(fields: seq<Field>, name: string, i: nat)
    requires i < |fields| && fields[i].name == name
    requires forall k :: 0 <= k < i ==> fields[k].name != name
    ensures Find(fields, name) == Some(i)
  {
  }

  lemma PutFinds(fields: seq<Field>, name: string, value: Json, other: string)
    ensures Get(Put(fields, name, value), other) == if other == name then Some(value) else Get(fields, other)
    ensures Find(fields, name).Some? ==> Find(Put(fields, name, value), other) == Find(fields, other)
    ensures Find(fields, other).Some? ==> Find(Put(fields, name, value), other) == Find(fields, other)
  {
    var put := Put(fields, name, value);
    assert forall k :: 0 <= k < |fields| ==> put[k].name == fields[k].name;
    var i := Find(fields, other);
    if i.Some? {
      FindIs(put, other, i.value);
    } else if other == name {
      FindIs(put, other, |fields|);
    }
  }

  lemma PutTwice(fields: seq<Field>, name: string, a: Json, b: Json)
    ensures Put(Put(fields, name, a), name, b) == Put(fields, name, b)
  {
    var put := Put(fields, name, a);
    var i := Find(fields, name);
    if i.None? {
      assert forall k :: 0 <= k < |fields| ==> put[k].name == fields[k].name;
      FindIs(put, name, |fields|);
    } else {
      PutFinds(fields, name, a, name);
    }
  }

  lemma UpdatesCommute<T>(s: seq<T>, i: nat, a: T, j: nat, b: T)
    requires i < |s| && j < |s| && i != j
    ensures s[i := a][j := b] == s[j := b][i := a]
  {
  }

  lemma UpdateThenAppend<T>(s: seq<T>, j: nat, b: T, x: T)
    requires j < |s|
    ensures (s + [x])[j := b] == s[j := b] + [x]
  {
  }

  lemma PutsCommute(fields: seq<Field>, x: string, a: Json, y: string, b: Json)
    requires x != y && Find(fields, y).Some?
    ensures Put(Put(fields, x, a), y, b) == Put(Put(fields, y, b), x, a)
  {
    PutFinds(fields, y, b, x);
    PutFinds(fields, x, a, y);
    var i, j := Find(fields, x), Find(fields, y).value;
    if i.Some? {
      assert fields[i.value].name != fields[j].name;
      UpdatesCommute(fields, i.value, Field(x, a), j, Field(y, b));
    } else {
      UpdateThenAppend(fields, j, Field(y, b), Field(x, a));
    }
  }

  // ----- children of a schema node -----

  predicate IsConst(j: Json) {
    j.Object? && Get(j.fields, "const").Some?
  }

  function ListOf(j: Json, keyword: string): seq<Json>
    requires j.Object?
  {
    var v := Get(j.fields, keyword);
    if v.Some? && v.value.Array? then v.value.items else []
  }

  /** The union's options: `anyOf` then `oneOf`, each with its own position. */
  function UnionOptions(j: Json): seq<Json>
    requires j.Object?
  {
    ListOf(j, "anyOf") + ListOf(j, "oneOf")
  }

  /** The schema one step below. */
  function Child(j: Json, step: Step): Option<Json> {
    if !j.Object? then None
    else
      match step
      case Position(k) =>
        var options := UnionOptions(j);
        if k < |options| && IsConst(options[k]) then Some(options[k]) else None
      case Name(name) =>
        if name == "[]" then
          var items := Get(j.fields, "items");
          if items.Some? && items.value.Object? then items else None
        else
          var properties := Get(j.fields, "properties");
          if properties.None? || !properties.value.Object? then None
          else
            var sub := Get(properties.value.fields, name);
            if sub.Some? && sub.value.Object? then sub else None
  }

  /** Replace the schema one step below. */
  function WithChild(j: Json, step: Step, child: Json): (r: Json)
    requires Child(j, step).Some?
    ensures r.Object?
  {
    match step
    case Position(k) =>
      var any, one := ListOf(j, "anyOf"), ListOf(j, "oneOf");
      if k < |any| then Object(Put(j.fields, "anyOf", Array(any[k := child])))
      else Object(Put(j.fields, "oneOf", Array(one[k - |any| := child])))
    case Name(name) =>
      if name == "[]" then Object(Put(j.fields, "items", child))
      else Object(Put(j.fields, "properties", Object(Put(Get(j.fields, "properties").value.fields, name, child))))
  }

  function Described(j: Json): Option<Json> {
    if j.Object? then Get(j.fields, "description") else None
  }

  function WithDescription(j: Json, text: string): (r: Json)
    requires j.Object?
    ensures r.Object?
  {
    Object(Put(j.fields, "description", String(text)))
  }

  // ----- paths -----

  function Lookup(j: Json, path: Path): Option<Json> {
    if !j.Object? then None
    else if path == [] then Some(j)
    else if Child(j, path[0]).None? then None
    else Lookup(Child(j, path[0]).value, path[1..])
  }

  /** The description at a path, whatever its type. */
  function DescriptionAt(j: Json, path: Path): Option<Json> {
    var node := Lookup(j, path);
    if node.None? then None else Described(node.value)
  }

  function SetAt(j: Json, path: Path, text: string): (r: Json)
    requires Lookup(j, path).Some?
    ensures r.Object?
  {
    if path == [] then WithDescription(j, text)
    else WithChild(j, path[0], SetAt(Child(j, path[0]).value, path[1..], text))
  }

  /** Set a description; the flag says whether anything changed. */
  function SetDescription(j: Json, path: Path, text: string): (Json, bool) {
    if Lookup(j, path).None? || DescriptionAt(j, path) == Some(String(text)) then (j, false)
    else (SetAt(j, path, text), true)
  }

  // ----- laws of one node -----

  /** What can replace a child: an object, and a const one where an option was. */
  predicate Fits(step: Step, child: Json) {
    child.Object? && (step.Position? ==> IsConst(child))
  }

  lemma ReadList(j: Json, keyword: string, items: seq<Json>, other: string)
    requires j.Object?
    ensures ListOf(Object(Put(j.fields, keyword, Array(items))), other) == if other == keyword then items
                                                                            else ListOf(j, other)
  {
    PutFinds(j.fields, keyword, Array(items), other);
  }

  lemma ChildOfPut(j: Json, name: string, value: Json, step: Step)
    requires j.Object?
    requires (name != "anyOf" && name != "oneOf") || step.Name?
    requires name != "items" || step != ITEMS
    requires name != "properties" || !step.Name? || step == ITEMS
    ensures Child(Object(Put(j.fields, name, value)), step) == Child(j, step)
  {
    PutFinds(j.fields, name, value, "anyOf");
    PutFinds(j.fields, name, value, "oneOf");
    PutFinds(j.fields, name, value, "items");
    PutFinds(j.fields, name, value, "properties");
  }

  lemma DescriptionKeepsChildren(j: Json, text: string, step: Step)
    requires j.Object?
    ensures Child(WithDescription(j, text), step) == Child(j, step)
    ensures Described(WithDescription(j, text)) == Some(String(text))
    ensures IsConst(WithDescription(j, text)) == IsConst(j)
  {
    ChildOfPut(j, "description", String(text), step);
    PutFinds(j.fields, "description", String(text), "description");
    PutFinds(j.fields, "description", String(text), "const");
  }

  /** The value that a union keyword gets when one option is replaced. */
  function NewOptions(j: Json, k: nat, child: Json): (r: (string, seq<Json>))
    requires Child(j, Position(k)).Some?
    ensures WithChild(j, Position(k), child) == Object(Put(j.fields, r.0, Array(r.1)))
  {
    var any, one := ListOf(j, "anyOf"), ListOf(j, "oneOf");
    if k < |any| then ("anyOf", any[k := child]) else ("oneOf", one[k - |any| := child])
  }

  lemma OptionReplaced(j: Json, k: nat, c: Json)
    requires Child(j, Position(k)).Some?
    ensures UnionOptions(WithChild(j, Position(k), c)) == UnionOptions(j)[k := c]
    ensures |ListOf(WithChild(j, Position(k), c), "anyOf")| == |ListOf(j, "anyOf")|
  {
    var (keyword, items) := NewOptions(j, k, c);
    ReadList(j, keyword, items, "anyOf");
    ReadList(j, keyword, items, "oneOf");
  }

  /** The field of a node that holds a child, and its value once the child is replaced. */
  function NewField(j: Json, s: Step, c: Json): (r: (string, Json))
    requires Child(j, s).Some?
    ensures WithChild(j, s, c) == Object(Put(j.fields, r.0, r.1))
    ensures r.0 != "description" && r.0 != "const" && r.0 != "type"
    ensures Find(j.fields, r.0).Some?
  {
    match s
    case Position(k) =>
      var (keyword, items) := NewOptions(j, k, c);
      (keyword, Array(items))
    case Name(name) =>
      if name == "[]" then ("items", c)
      else ("properties", Object(Put(Get(j.fields, "properties").value.fields, name, c)))
  }

  /** Replacing a child leaves the node's own description, const and type alone. */
  lemma WithChildKeepsNode(j: Json, s: Step, c: Json, field: string)
    requires Child(j, s).Some? && (field == "description" || field == "const" || field == "type")
    ensures Get(WithChild(j, s, c).fields, field) == Get(j.fields, field)
  {
    var (name, value) := NewField(j, s, c);
    PutFinds(j.fields, name, value, field);
  }

  lemma ReplacedChild(j: Json, s: Step, c: Json)
    requires Child(j, s).Some? && Fits(s, c)
    ensures Child(WithChild(j, s, c), s) == Some(c)
  {
    match s
    case Position(k) => OptionReplaced(j, k, c);
    case Name(name) =>
      var (field, value) := NewField(j, s, c);
      PutFinds(j.fields, field, value, field);
      if name != "[]" {
        PutFinds(Get(j.fields, "properties").value.fields, name, c, name);
      }
  }

  lemma OtherChild(j: Json, s: Step, c: Json, t: Step)
    requires Child(j, s).Some? && Fits(s, c) && s != t
    ensures Child(WithChild(j, s, c), t) == Child(j, t)
  {
    var (field, value) := NewField(j, s, c);
    if s.Position? && t.Position? {
      OptionReplaced(j, s.index, c);
    } else if s.Name? && s.name != "[]" && t.Name? && t.name != "[]" {
      PutFinds(j.fields, field, value, field);
      PutFinds(Get(j.fields, "properties").value.fields, s.name, c, t.name);
    } else {
      ChildOfPut(j, field, value, t);
    }
  }

  /** Both lists after an option was replaced. */
  lemma ListsAfter(j: Json, k: nat, c: Json)
    requires Child(j, Position(k)).Some?
    ensures var any, one := ListOf(j, "anyOf"), ListOf(j, "oneOf");
      var a := WithChild(j, Position(k), c);
      && ListOf(a, "anyOf") == (if k < |any| then any[k := c] else any)
      && k < |any| + |one| && ListOf(a, "oneOf") == if k < |any| then one else one[k - |any| := c]
  {
    var (keyword, items) := NewOptions(j, k, c);
    ReadList(j, keyword, items, "anyOf");
    ReadList(j, keyword, items, "oneOf");
  }

  lemma SameOptions(j: Json, k: nat, c: Json, d: Json)
    requires Child(j, Position(k)).Some? && Child(WithChild(j, Position(k), c), Position(k)).Some?
    ensures NewOptions(WithChild(j, Position(k), c), k, d) == NewOptions(j, k, d)
  {
    ListsAfter(j, k, c);
    UpdateTwice(ListOf(j, "anyOf"), k, c, d);
    UpdateTwice(ListOf(j, "oneOf"), k - |ListOf(j, "anyOf")|, c, d);
  }

  lemma UpdateTwice<T>(xs: seq<T>, i: int, c: T, d: T)
    ensures 0 <= i < |xs| ==> xs[i := c][i := d] == xs[i := d]
  {
  }

  lemma SameProperties(j: Json, name: string, c: Json, d: Json)
    requires name != "[]" && Child(j, Name(name)).Some? && Child(WithChild(j, Name(name), c), Name(name)).Some?
    ensures NewField(WithChild(j, Name(name), c), Name(name), d) == NewField(j, Name(name), d)
  {
    var props := Get(j.fields, "properties").value.fields;
    PutFinds(j.fields, "properties", Object(Put(props, name, c)), "properties");
    PutTwice(props, name, c, d);
  }

  /** Replacing a child again writes the same field. */
  lemma SameField(j: Json, s: Step, c: Json, d: Json)
    requires Child(j, s).Some? && Child(WithChild(j, s, c), s).Some?
    ensures NewField(WithChild(j, s, c), s, d) == NewField(j, s, d)
    ensures NewField(j, s, c).0 == NewField(j, s, d).0
  {
    if s.Position? {
      SameOptions(j, s.index, c, d);
    } else if s != ITEMS {
      SameProperties(j, s.name, c, d);
    }
  }

  lemma WithChildTwice(j: Json, s: Step, c: Json, d: Json)
    requires Child(j, s).Some? && Fits(s, c)
    ensures Child(WithChild(j, s, c), s).Some?
    ensures WithChild(WithChild(j, s, c), s, d) == WithChild(j, s, d)
  {
    ReplacedChild(j, s, c);
    SameField(j, s, c, d);
    var (field, value) := NewField(j, s, c);
    PutTwice(j.fields, field, value, NewField(j, s, d).1);
  }

  predicate IsProperty(s: Step) {
    s.Name? && s != ITEMS
  }

  /** Writing another field leaves the field of a child alone. */
  lemma FieldOfPut(j: Json, name: string, value: Json, t: Step, d: Json)
    requires Child(j, t).Some? && Child(Object(Put(j.fields, name, value)), t).Some?
    requires (name != "anyOf" && name != "oneOf") || t.Name?
    requires name != "properties" || !IsProperty(t)
    ensures NewField(Object(Put(j.fields, name, value)), t, d) == NewField(j, t, d)
  {
    if t.Position? {
      OptionsOfPut(j, name, value, t.index, d);
    } else if t != ITEMS {
      PutFinds(j.fields, name, value, "properties");
    }
  }

  lemma OptionsOfPut(j: Json, name: string, value: Json, k: nat, d: Json)
    requires Child(j, Position(k)).Some? && Child(Object(Put(j.fields, name, value)), Position(k)).Some?
    requires name != "anyOf" && name != "oneOf"
    ensures NewOptions(Object(Put(j.fields, name, value)), k, d) == NewOptions(j, k, d)
  {
    PutFinds(j.fields, name, value, "anyOf");
    PutFinds(j.fields, name, value, "oneOf");
  }

  /** Describing a node leaves the fields of its children alone. */
  lemma DescribedField(j: Json, s: Step, c: Json, text: string)
    requires Child(j, s).Some?
    ensures Child(WithDescription(j, text), s).Some?
    ensures NewField(WithDescription(j, text), s, c) == NewField(j, s, c)
  {
    DescriptionKeepsChildren(j, text, s);
    FieldOfPut(j, "description", String(text), s, c);
  }

  lemma DescriptionCommutes(j: Json, s: Step, c: Json, text: string)
    requires Child(j, s).Some?
    ensures Child(WithDescription(j, text), s).Some?
    ensures WithChild(WithDescription(j, text), s, c) == WithDescription(WithChild(j, s, c), text)
  {
    DescribedField(j, s, c, text);
    var (field, value) := NewField(j, s, c);
    PutsCommute(j.fields, "description", String(text), field, value);
  }

  /** Two children in different fields of the node. */
  predicate Apart(s: Step, t: Step) {
    s != t && !(s.Position? && t.Position?) && !(IsProperty(s) && IsProperty(t))
  }

  lemma FieldName(j: Json, s: Step, c: Json)
    requires Child(j, s).Some?
    ensures var name := NewField(j, s, c).0;
      if s.Position? then name == "anyOf" || name == "oneOf" else if s == ITEMS then name == "items" else name == "properties"
  {
  }

  lemma FieldStays(j: Json, s: Step, c: Json, t: Step, d: Json)
    requires Child(j, s).Some? && Child(j, t).Some? && Child(WithChild(j, s, c), t).Some? && Apart(s, t)
    ensures NewField(WithChild(j, s, c), t, d) == NewField(j, t, d)
    ensures NewField(j, s, c).0 != NewField(j, t, d).0
  {
    FieldName(j, s, c);
    FieldName(j, t, d);
    var (field, value) := NewField(j, s, c);
    FieldOfPut(j, field, value, t, d);
  }

  lemma ApartCommute(j: Json, s: Step, c: Json, t: Step, d: Json)
    requires Child(j, s).Some? && Child(j, t).Some? && Apart(s, t)
    requires Child(WithChild(j, s, c), t).Some? && Child(WithChild(j, t, d), s).Some?
    ensures WithChild(WithChild(j, s, c), t, d) == WithChild(WithChild(j, t, d), s, c)
  {
    FieldStays(j, s, c, t, d);
    FieldStays(j, t, d, s, c);
    var (fs, vs) := NewField(j, s, c);
    var (ft, vt) := NewField(j, t, d);
    PutsCommute(j.fields, fs, vs, ft, vt);
  }

  lemma PropertyTwice(j: Json, x: string, c: Json, y: string, d: Json)
    requires x != "[]" && y != "[]" && Child(j, Name(x)).Some? && Child(WithChild(j, Name(x), c), Name(y)).Some?
    ensures WithChild(WithChild(j, Name(x), c), Name(y), d) ==
            Object(Put(j.fields, "properties", Object(Put(Put(Get(j.fields, "properties").value.fields, x, c), y, d))))
  {
    var props := Get(j.fields, "properties").value.fields;
    var one := Object(Put(props, x, c));
    PutFinds(j.fields, "properties", one, "properties");
    PutTwice(j.fields, "properties", one, Object(Put(Put(props, x, c), y, d)));
  }

  lemma PropertiesCommute(j: Json, x: string, c: Json, y: string, d: Json)
    requires x != y && x != "[]" && y != "[]" && Child(j, Name(x)).Some? && Child(j, Name(y)).Some?
    requires Child(WithChild(j, Name(x), c), Name(y)).Some? && Child(WithChild(j, Name(y), d), Name(x)).Some?
    ensures WithChild(WithChild(j, Name(x), c), Name(y), d) == WithChild(WithChild(j, Name(y), d), Name(x), c)
  {
    PropertyTwice(j, x, c, y, d);
    PropertyTwice(j, y, d, x, c);
    PutsCommute(Get(j.fields, "properties").value.fields, x, c, y, d);
  }

  /** Replacing two different children commutes. */
  lemma ChildrenCommute(j: Json, s: Step, c: Json, t: Step, d: Json)
    requires Child(j, s).Some? && Child(j, t).Some? && s != t && Fits(s, c) && Fits(t, d)
    ensures Child(WithChild(j, s, c), t).Some? && Child(WithChild(j, t, d), s).Some?
    ensures WithChild(WithChild(j, s, c), t, d) == WithChild(WithChild(j, t, d), s, c)
  {
    OtherChild(j, s, c, t);
    OtherChild(j, t, d, s);
    if Apart(s, t) {
      ApartCommute(j, s, c, t, d);
    } else if s.Position? {
      OptionsCommute(j, s.index, c, t.index, d);
    } else {
      PropertiesCommute(j, s.name, c, t.name, d);
    }
  }

  /** The list that holds option `m`, after option `k` was replaced. */
  lemma NextOptions(j: Json, k: nat, c: Json, m: nat, d: Json)
    requires Child(j, Position(k)).Some? && Child(j, Position(m)).Some? && k != m
    requires Child(WithChild(j, Position(k), c), Position(m)).Some?
    ensures var (keyword, items) := NewOptions(j, k, c);
      var n := if keyword == "anyOf" then m else m - |ListOf(j, "anyOf")|;
      NewOptions(WithChild(j, Position(k), c), m, d) ==
      if NewOptions(j, m, d).0 == keyword then (keyword, items[n := d]) else NewOptions(j, m, d)
  {
    var (keyword, items) := NewOptions(j, k, c);
    ReadList(j, keyword, items, "anyOf");
    ReadList(j, keyword, items, "oneOf");
  }

  /** Two replacements in one list. */
  lemma SameListCommutes(j: Json, k: nat, c: Json, m: nat, d: Json)
    requires Child(j, Position(k)).Some? && Child(j, Position(m)).Some? && k != m
    requires NewOptions(j, k, c).0 == NewOptions(j, m, d).0
    ensures var n := if NewOptions(j, k, c).0 == "anyOf" then 0 else |ListOf(j, "anyOf")|;
      && n <= k < n + |NewOptions(j, k, c).1| && n <= m < n + |NewOptions(j, m, d).1|
      && NewOptions(j, k, c).1[m - n := d] == NewOptions(j, m, d).1[k - n := c]
  {
  }

  /** One list set twice, or two lists set once each: the order does not show. */
  lemma PutsAgree(j: Json, a: Json, b: Json, x: Json, y: Json, fk: string, ik: seq<Json>, fm: string, im: seq<Json>,
                  jm: seq<Json>, jk: seq<Json>)
    requires j.Object? && a == Object(Put(j.fields, fk, Array(ik))) && b == Object(Put(j.fields, fm, Array(im)))
    requires x == Object(Put(a.fields, fm, Array(jm))) && y == Object(Put(b.fields, fk, Array(jk)))
    requires if fk == fm then jm == jk else jm == im && jk == ik
    requires Find(j.fields, fm).Some?
    ensures x == y
  {
    if fk == fm {
      PutTwice(j.fields, fk, Array(ik), Array(jm));
      PutTwice(j.fields, fk, Array(im), Array(jm));
    } else {
      PutsCommute(j.fields, fk, Array(ik), fm, Array(im));
    }
  }

  /** The second replacement reads the keyword and the list that the first one left. */
  lemma NextReads(j: Json, k: nat, c: Json, m: nat, d: Json, a: Json)
    requires Child(j, Position(k)).Some? && Child(j, Position(m)).Some? && k != m
    requires a == WithChild(j, Position(k), c) && Child(a, Position(m)).Some?
    ensures var n := if NewOptions(j, k, c).0 == "anyOf" then 0 else |ListOf(j, "anyOf")|;
      && NewOptions(a, m, d).0 == NewOptions(j, m, d).0
      && (if NewOptions(j, k, c).0 == NewOptions(j, m, d).0
          then n <= m < n + |NewOptions(j, k, c).1| && NewOptions(a, m, d).1 == NewOptions(j, k, c).1[m - n := d]
          else NewOptions(a, m, d).1 == NewOptions(j, m, d).1)
  {
    NextOptions(j, k, c, m, d);
    if NewOptions(j, k, c).0 == NewOptions(j, m, d).0 {
      SameListCommutes(j, k, c, m, d);
    }
  }

  lemma OptionListsAgree(j: Json, k: nat, c: Json, m: nat, d: Json, a: Json, b: Json)
    requires Child(j, Position(k)).Some? && Child(j, Position(m)).Some? && k != m
    requires a == WithChild(j, Position(k), c) && b == WithChild(j, Position(m), d)
    requires Child(a, Position(m)).Some? && Child(b, Position(k)).Some?
    ensures NewOptions(a, m, d).0 == NewOptions(j, m, d).0 && NewOptions(b, k, c).0 == NewOptions(j, k, c).0
    ensures if NewOptions(j, k, c).0 == NewOptions(j, m, d).0 then NewOptions(a, m, d).1 == NewOptions(b, k, c).1
            else NewOptions(a, m, d).1 == NewOptions(j, m, d).1 && NewOptions(b, k, c).1 == NewOptions(j, k, c).1
  {
    NextReads(j, k, c, m, d, a);
    NextReads(j, m, d, k, c, b);
    if NewOptions(j, k, c).0 == NewOptions(j, m, d).0 {
      SameListCommutes(j, k, c, m, d);
    }
  }

  lemma OptionsCommute(j: Json, k: nat, c: Json, m: nat, d: Json)
    requires Child(j, Position(k)).Some? && Child(j, Position(m)).Some? && k != m
    requires Child(WithChild(j, Position(k), c), Position(m)).Some?
    requires Child(WithChild(j, Position(m), d), Position(k)).Some?
    ensures WithChild(WithChild(j, Position(k), c), Position(m), d)
            == WithChild(WithChild(j, Position(m), d), Position(k), c)
  {
    var a, b := WithChild(j, Position(k), c), WithChild(j, Position(m), d);
    OptionListsAgree(j, k, c, m, d, a, b);
    var (fk, ik) := NewOptions(j, k, c);
    var (fm, im) := NewOptions(j, m, d);
    PutsAgree(j, a, b, WithChild(a, Position(m), d), WithChild(b, Position(k), c), fk, ik, fm, im,
              NewOptions(a, m, d).1, NewOptions(b, k, c).1);
  }

  // ----- laws of paths -----

  /** What replaces a const option is still one: its `const` field is never touched. */
  lemma {:induction false} SetAtFits(j: Json, path: Path, text: string)
    requires Lookup(j, path).Some?
    ensures SetAt(j, path, text).Object? && IsConst(SetAt(j, path, text)) == IsConst(j)
  {
    if path == [] {
      PutFinds(j.fields, "description", String(text), "const");
    } else {
      WithChildKeepsNode(j, path[0], SetAt(Child(j, path[0]).value, path[1..], text), "const");
    }
  }

  /** Setting a description leaves every path that resolved resolving, and changes what is
      read at that path only. */
  lemma {:induction false} SetThenRead(j: Json, p: Path, text: string, q: Path)
    requires Lookup(j, p).Some? && Lookup(j, q).Some?
    ensures Lookup(SetAt(j, p, text), q).Some?
    ensures DescriptionAt(SetAt(j, p, text), q) == if p == q then Some(String(text)) else DescriptionAt(j, q)
    decreases |p|
  {
    if p == [] {
      DescriptionKeepsChildren(j, text, if q == [] then ITEMS else q[0]);
    } else {
      var sub := SetAt(Child(j, p[0]).value, p[1..], text);
      SetAtFits(Child(j, p[0]).value, p[1..], text);
      if q == [] {
        WithChildKeepsNode(j, p[0], sub, "description");
      } else if q[0] == p[0] {
        ReplacedChild(j, p[0], sub);
        SetThenRead(Child(j, p[0]).value, p[1..], text, q[1..]);
        assert p == [p[0]] + p[1..] && q == [q[0]] + q[1..];
      } else {
        OtherChild(j, p[0], sub, q[0]);
      }
    }
  }

  /** Setting two different paths commutes, parents and children included. */
  lemma {:induction false} SetsCommute(j: Json, p: Path, v: string, q: Path, w: string)
    requires Lookup(j, p).Some? && Lookup(j, q).Some? && p != q
    ensures Lookup(SetAt(j, p, v), q).Some? && Lookup(SetAt(j, q, w), p).Some?
    ensures SetAt(SetAt(j, p, v), q, w) == SetAt(SetAt(j, q, w), p, v)
    decreases |p|
  {
    SetThenRead(j, p, v, q);
    SetThenRead(j, q, w, p);
    if p == [] {
      ParentChildCommute(j, v, q, w);
    } else if q == [] {
      ParentChildCommute(j, w, p, v);
    } else {
      var a, b := SetAt(Child(j, p[0]).value, p[1..], v), SetAt(Child(j, q[0]).value, q[1..], w);
      SetAtFits(Child(j, p[0]).value, p[1..], v);
      SetAtFits(Child(j, q[0]).value, q[1..], w);
      if p[0] == q[0] {
        assert p == [p[0]] + p[1..] && q == [q[0]] + q[1..];
        SetsCommute(Child(j, p[0]).value, p[1..], v, q[1..], w);
        ReplacedChild(j, p[0], a);
        ReplacedChild(j, q[0], b);
        WithChildTwice(j, p[0], a, SetAt(a, q[1..], w));
        WithChildTwice(j, q[0], b, SetAt(b, p[1..], v));
      } else {
        OtherChild(j, p[0], a, q[0]);
        OtherChild(j, q[0], b, p[0]);
        ChildrenCommute(j, p[0], a, q[0], b);
      }
    }
  }

  lemma ParentChildCommute(j: Json, v: string, q: Path, w: string)
    requires j.Object? && Lookup(j, q).Some? && q != []
    requires Lookup(WithDescription(j, v), q).Some?
    ensures SetAt(WithDescription(j, v), q, w) == WithDescription(SetAt(j, q, w), v)
  {
    DescriptionKeepsChildren(j, v, q[0]);
    DescriptionCommutes(j, q[0], SetAt(Child(j, q[0]).value, q[1..], w), v);
  }
}
