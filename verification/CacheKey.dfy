/** Metric cache keys bind a score to the gold it was given for. */
module CacheKeys {
  import opened Options
  import opened Fingerprints

  const SCHEMA_VERSION := "2"

  datatype Output = Output(result: string, success: bool, error: Option<string>)

  /** A cached call: the gold is a value, every other part is its serialized text. */
  datatype Call = Call(
    expected: Value,
    evaluators: string,
    model: Option<string>,
    caseName: string,
    inputs: string,
    metadata: string,
    history: Option<string>,
    output: Option<Output>,
    candidate: string)

  function Join(parts: seq<string>): string {
    if parts == [] then "" else if |parts| == 1 then parts[0] else parts[0] + ("|" + Join(parts[1..]))
  }

  /** The parts that a metric key has before the gold. */
  function MetricHead(identity: string): seq<string> {
    ["type:metric", "schema:" + SCHEMA_VERSION, "metric:" + identity]
  }

  function ModelParts(call: Call): seq<string> {
    if call.model.Some? && call.model.value != "" then ["model:" + call.model.value] else []
  }

  function CaseParts(call: Call): seq<string> {
    ["case_name:" + call.caseName, "inputs:" + call.inputs, "metadata:" + call.metadata]
  }

  function HistoryParts(call: Call): seq<string> {
    if call.history.Some? then ["history:" + call.history.value] else []
  }

  function OutputParts(call: Call): seq<string> {
    if call.output.None? then []
    else
      ["result:" + call.output.value.result,
       "success:" + (if call.output.value.success then "True" else "False"),
       "error:" + (if call.output.value.error.Some? && call.output.value.error.value != ""
                   then call.output.value.error.value else "None")]
  }

  /** The parts after the gold. */
  function Tail(call: Call): seq<string> {
    ModelParts(call) + (CaseParts(call) + (HistoryParts(call) + (OutputParts(call) + ["candidate:" + call.candidate])))
  }

  function MetricParts(identity: string, call: Call, hash: string -> string): seq<string> {
    MetricHead(identity)
    + ["expected_output:" + hash(Fingerprint(call.expected)), "evaluators:" + call.evaluators]
    + Tail(call)
  }

  function AgentRunParts(call: Call): seq<string> {
    ["type:agent_run", "schema:" + SCHEMA_VERSION] + Tail(call)
  }

  /** The shared tail of every key, appended part by part. */
  method AppendTail(head: seq<string>, call: Call) returns (parts: seq<string>)
    ensures parts == head + Tail(call)
  {
    parts := head;
    if call.model.Some? && call.model.value != "" {
      parts := parts + ["model:" + call.model.value];
    }
    assert parts == head + ModelParts(call);
    ghost var model := parts;
    parts := parts + ["case_name:" + call.caseName];
    parts := parts + ["inputs:" + call.inputs];
    parts := parts + ["metadata:" + call.metadata];
    assert parts == model + CaseParts(call);
    ghost var named := parts;
    if call.history.Some? {
      parts := parts + ["history:" + call.history.value];
    }
    assert parts == named + HistoryParts(call);
    ghost var past := parts;
    if call.output.Some? {
      var output := call.output.value;
      parts := parts + ["result:" + output.result];
      parts := parts + ["success:" + (if output.success then "True" else "False")];
      parts := parts + ["error:" + (if output.error.Some? && output.error.value != "" then output.error.value
                                    else "None")];
    }
    assert parts == past + OutputParts(call);
    parts := parts + ["candidate:" + call.candidate];
    Stack(head, ModelParts(call), CaseParts(call), HistoryParts(call), OutputParts(call),
          ["candidate:" + call.candidate]);
  }

  lemma Stack(a: seq<string>, b: seq<string>, c: seq<string>, d: seq<string>, e: seq<string>, f: seq<string>)
    ensures ((((a + b) + c) + d) + e) + f == a + (b + (c + (d + (e + f))))
  {
  }

  /** The key as the cache builds it. */
  method GenerateCacheKey(metric: bool, identity: string, call: Call, hash: string -> string) returns (key: string)
    ensures key == hash(Join(if metric then MetricParts(identity, call, hash) else AgentRunParts(call)))
  {
    var parts := [if metric then "type:metric" else "type:agent_run", "schema:" + SCHEMA_VERSION];
    if metric {
      parts := parts + ["metric:" + identity];
      var expectedHash := hash(Fingerprint(call.expected));
      parts := parts + ["expected_output:" + expectedHash];
      parts := parts + ["evaluators:" + call.evaluators];
      assert parts == MetricHead(identity)
                      + ["expected_output:" + hash(Fingerprint(call.expected)), "evaluators:" + call.evaluators];
    }
    parts := AppendTail(parts, call);
    key := hash(Join(parts));
  }

  predicate Collision(hash: string -> string, x: string, y: string) {
    x != y && hash(x) == hash(y)
  }

  lemma {:induction false} JoinAppend(a: seq<string>, b: seq<string>)
    requires a != [] && b != []
    ensures Join(a + b) == Join(a) + ("|" + Join(b))
  {
    assert (a + b)[0] == a[0] && (a + b)[1..] == a[1..] + b;
    if |a| == 1 {
      assert a[1..] + b == b;
    } else {
      JoinAppend(a[1..], b);
      Regroup(a[0], Join(a[1..]), Join(b));
    }
  }

  lemma Regroup(a: string, b: string, c: string)
    ensures a + ("|" + (b + ("|" + c))) == (a + ("|" + b)) + ("|" + c)
  {
  }

  /** What comes before the gold's hash depends on the metric identity only. */
  lemma GoldPosition(identity: string, call: Call, hash: string -> string)
    ensures Join(MetricParts(identity, call, hash)) ==
            (Join(MetricHead(identity)) + "|expected_output:") + hash(Fingerprint(call.expected))
            + ("|" + Join(["evaluators:" + call.evaluators] + Tail(call)))
  {
    var evaluators := "evaluators:" + call.evaluators;
    GoldBetween(MetricHead(identity), hash(Fingerprint(call.expected)), evaluators, Tail(call));
  }

  lemma GoldBetween(head: seq<string>, digest: string, evaluators: string, tail: seq<string>)
    requires head != []
    ensures Join(head + ["expected_output:" + digest, evaluators] + tail) ==
            (Join(head) + "|expected_output:") + digest + ("|" + Join([evaluators] + tail))
  {
    var gold := "expected_output:" + digest;
    var rest := [evaluators] + tail;
    assert head + [gold, evaluators] + tail == head + ([gold] + rest);
    JoinAppend(head, [gold] + rest);
    JoinAppend([gold], rest);
    assert Join([gold]) == gold;
    RegroupGold(Join(head), digest, Join(rest));
  }

  lemma RegroupGold(head: string, digest: string, rest: string)
    ensures head + ("|" + (("expected_output:" + digest) + ("|" + rest)))
            == (head + "|expected_output:") + digest + ("|" + rest)
  {
  }

  lemma SameMiddle(head: string, x: string, y: string, a: string, b: string)
    requires |x| == |y| && head + x + a == head + y + b
    ensures x == y
  {
    assert (head + x + a)[|head|..|head| + |x|] == x;
    assert (head + y + b)[|head|..|head| + |y|] == y;
  }

  /** Under one metric identity, two calls share a metric key only if their golds are the same
      value up to dict order (and combined surrogates), or a hash collision is at hand: of the
      two gold fingerprints or of the two joined keys. */
  lemma GoldsNeverShareKeys(identity: string, a: Call, b: Call, hash: string -> string)
    requires DistinctKeys(a.expected)
    requires |hash(Fingerprint(a.expected))| == |hash(Fingerprint(b.expected))|
    requires hash(Join(MetricParts(identity, a, hash))) == hash(Join(MetricParts(identity, b, hash)))
    ensures Same(a.expected, b.expected, false)
            || Collision(hash, Fingerprint(a.expected), Fingerprint(b.expected))
            || Collision(hash, Join(MetricParts(identity, a, hash)), Join(MetricParts(identity, b, hash)))
  {
    if Join(MetricParts(identity, a, hash)) == Join(MetricParts(identity, b, hash)) {
      GoldPosition(identity, a, hash);
      GoldPosition(identity, b, hash);
      SameMiddle(Join(MetricHead(identity)) + "|expected_output:",
                 hash(Fingerprint(a.expected)), hash(Fingerprint(b.expected)),
                 "|" + Join(["evaluators:" + a.evaluators] + Tail(a)), "|" + Join(["evaluators:" + b.evaluators] + Tail(b)));
      FingerprintsAgree(a.expected, b.expected);
    }
  }

  // ----- what a key says about its call -----

  predicate Plain(s: string) {
    '|' !in s
  }

  predicate PlainOption(s: Option<string>) {
    s.Some? ==> Plain(s.value)
  }

  /** No serialized text of the call has a separator in it. */
  predicate PlainCall(call: Call) {
    && Plain(call.evaluators) && PlainOption(call.model) && PlainOption(call.history)
    && Plain(call.caseName) && Plain(call.inputs) && Plain(call.metadata) && Plain(call.candidate)
    && (call.output.Some? ==> Plain(call.output.value.result) && PlainOption(call.output.value.error))
  }

  function Given(s: Option<string>): string {
    if s.Some? then s.value else ""
  }

  predicate SameModel(a: Option<string>, b: Option<string>) {
    a == b || (Given(a) == "" && Given(b) == "")
  }

  /** A missing error, an empty one and the text None are written alike. */
  predicate SameError(a: Option<string>, b: Option<string>) {
    a == b || (Given(a) in {"", "None"} && Given(b) in {"", "None"})
  }

  predicate SameOutput(a: Option<Output>, b: Option<Output>) {
    && a.Some? == b.Some?
    && (a.Some? ==> a.value.result == b.value.result && a.value.success == b.value.success
                    && SameError(a.value.error, b.value.error))
  }

  /** The two calls are alike in everything the shared tail covers. */
  predicate SameCase(a: Call, b: Call) {
    && SameModel(a.model, b.model) && a.caseName == b.caseName && a.inputs == b.inputs && a.metadata == b.metadata
    && a.history == b.history && SameOutput(a.output, b.output) && a.candidate == b.candidate
  }

  lemma AtCut(a: string, b: string, x: string, y: string)
    requires a + x == b + y && |a| < |b|
    ensures x != "" && b[|a|] == x[0]
  {
    assert (a + x)[|a|] == (b + y)[|a|] && |a + x| == |b + y|;
  }

  lemma Cut(a: string, b: string, x: string, y: string)
    requires Plain(a) && Plain(b) && a + x == b + y
    requires (x != "" ==> x[0] == '|') && (y != "" ==> y[0] == '|')
    ensures a == b && x == y
  {
    if |a| < |b| {
      AtCut(a, b, x, y);
      assert false;
    } else if |b| < |a| {
      AtCut(b, a, y, x);
      assert false;
    } else {
      assert (a + x)[..|a|] == a && (b + y)[..|a|] == b;
      assert (a + x)[|a|..] == x && (b + y)[|a|..] == y;
    }
  }

  /** Parts without separators can be read back from the joined text. */
  lemma {:induction false} JoinInjective(xs: seq<string>, ys: seq<string>)
    requires xs != [] && ys != [] && Join(xs) == Join(ys)
    requires AllPlain(xs) && AllPlain(ys)
    ensures xs == ys
  {
    var x := if |xs| == 1 then "" else "|" + Join(xs[1..]);
    var y := if |ys| == 1 then "" else "|" + Join(ys[1..]);
    assert Join(xs) == xs[0] + x && Join(ys) == ys[0] + y;
    Cut(xs[0], ys[0], x, y);
    if |xs| > 1 {
      assert x[1..] == Join(xs[1..]) && y[1..] == Join(ys[1..]);
      JoinInjective(xs[1..], ys[1..]);
      assert xs == [xs[0]] + xs[1..] && ys == [ys[0]] + ys[1..];
    }
  }

  lemma Tagged(tag: string, x: string, y: string)
    requires tag + x == tag + y
    ensures x == y
  {
    assert (tag + x)[|tag|..] == x && (tag + y)[|tag|..] == y;
  }

  lemma Head(xs: seq<string>, ys: seq<string>, a: seq<string>, b: seq<string>)
    requires xs + a == ys + b && |xs| == |ys|
    ensures xs == ys && a == b
  {
    assert (xs + a)[..|xs|] == xs && (ys + b)[..|xs|] == ys;
    assert (xs + a)[|xs|..] == a && (ys + b)[|xs|..] == b;
  }

  lemma OutputsAgree(a: Call, b: Call)
    requires OutputParts(a) + ["candidate:" + a.candidate] == OutputParts(b) + ["candidate:" + b.candidate]
    ensures SameOutput(a.output, b.output) && a.candidate == b.candidate
  {
    var x, y := OutputParts(a), OutputParts(b);
    assert |x| == |x + ["candidate:" + a.candidate]| - 1 && |y| == |y + ["candidate:" + b.candidate]| - 1;
    Head(x, y, ["candidate:" + a.candidate], ["candidate:" + b.candidate]);
    Tagged("candidate:", a.candidate, b.candidate);
    if a.output.Some? {
      Tagged("result:", x[0][7..], y[0][7..]);
      assert x[0][7..] == a.output.value.result && y[0][7..] == b.output.value.result;
      assert x[1][8..] == (if a.output.value.success then "True" else "False");
      assert y[1][8..] == (if b.output.value.success then "True" else "False");
      assert x[2][6..] == (if Given(a.output.value.error) != "" then a.output.value.error.value else "None");
      assert y[2][6..] == (if Given(b.output.value.error) != "" then b.output.value.error.value else "None");
    }
  }

  /** The parts after the gold determine the call. */
  lemma TailsAgree(a: Call, b: Call)
    requires Tail(a) == Tail(b)
    ensures SameCase(a, b)
  {
    var x3, y3 := OutputParts(a) + ["candidate:" + a.candidate], OutputParts(b) + ["candidate:" + b.candidate];
    var x2, y2 := HistoryParts(a) + x3, HistoryParts(b) + y3;
    var x1, y1 := CaseParts(a) + x2, CaseParts(b) + y2;
    assert Tail(a) == ModelParts(a) + x1 && Tail(b) == ModelParts(b) + y1;
    assert Tail(a)[0][0] == (if ModelParts(a) == [] then 'c' else 'm');
    assert Tail(b)[0][0] == (if ModelParts(b) == [] then 'c' else 'm');
    Head(ModelParts(a), ModelParts(b), x1, y1);
    if ModelParts(a) != [] {
      Tagged("model:", a.model.value, b.model.value);
    }
    Head(CaseParts(a), CaseParts(b), x2, y2);
    Tagged("case_name:", a.caseName, b.caseName);
    Tagged("inputs:", a.inputs, b.inputs);
    Tagged("metadata:", a.metadata, b.metadata);
    assert x2[0][0] == 'h' <==> HistoryParts(a) != [];
    assert y2[0][0] == 'h' <==> HistoryParts(b) != [];
    Head(HistoryParts(a), HistoryParts(b), x3, y3);
    if HistoryParts(a) != [] {
      Tagged("history:", a.history.value, b.history.value);
    }
    OutputsAgree(a, b);
  }

  predicate AllPlain(parts: seq<string>) {
    forall x :: x in parts ==> Plain(x)
  }

  lemma PlainBoth(a: seq<string>, b: seq<string>)
    requires AllPlain(a) && AllPlain(b)
    ensures AllPlain(a + b)
  {
  }

  lemma PlainOutput(call: Call)
    requires PlainCall(call)
    ensures AllPlain(OutputParts(call))
  {
  }

  lemma PlainCase(call: Call)
    requires PlainCall(call)
    ensures AllPlain(ModelParts(call)) && AllPlain(CaseParts(call)) && AllPlain(HistoryParts(call))
    ensures AllPlain(["candidate:" + call.candidate])
  {
  }

  lemma PlainTail(call: Call)
    requires PlainCall(call)
    ensures AllPlain(Tail(call))
  {
    PlainOutput(call);
    PlainCase(call);
    var last := ["candidate:" + call.candidate];
    PlainBoth(OutputParts(call), last);
    PlainBoth(HistoryParts(call), OutputParts(call) + last);
    PlainBoth(CaseParts(call), HistoryParts(call) + (OutputParts(call) + last));
    PlainBoth(ModelParts(call), CaseParts(call) + (HistoryParts(call) + (OutputParts(call) + last)));
  }

  lemma PlainParts(i: string, call: Call, hash: string -> string)
    requires Plain(i) && PlainCall(call) && Plain(hash(Fingerprint(call.expected)))
    ensures AllPlain(MetricParts(i, call, hash))
  {
    PlainTail(call);
    PlainBoth(MetricHead(i), ["expected_output:" + hash(Fingerprint(call.expected)), "evaluators:" + call.evaluators]);
    PlainBoth(MetricHead(i) + ["expected_output:" + hash(Fingerprint(call.expected)), "evaluators:" + call.evaluators], Tail(call));
  }

  lemma HeadsAgree(i: string, j: string, x: string, y: string, d: string, e: string, a: seq<string>, b: seq<string>)
    requires MetricHead(i) + ["expected_output:" + x, "evaluators:" + d] + a ==
             MetricHead(j) + ["expected_output:" + y, "evaluators:" + e] + b
    ensures i == j && x == y && d == e && a == b
  {
    var p := MetricHead(i) + ["expected_output:" + x, "evaluators:" + d];
    var q := MetricHead(j) + ["expected_output:" + y, "evaluators:" + e];
    Head(p, q, a, b);
    assert p[2] == "metric:" + i && q[2] == "metric:" + j;
    assert p[3] == "expected_output:" + x && q[3] == "expected_output:" + y;
    assert p[4] == "evaluators:" + d && q[4] == "evaluators:" + e;
    Tagged("metric:", i, j);
    Tagged("expected_output:", x, y);
    Tagged("evaluators:", d, e);
  }

  /** Equal keys of calls without separators belong to calls that are alike in everything the key
      is meant to cover, or two different texts were hashed to one. */
  lemma KeysDetermineCalls(i: string, j: string, a: Call, b: Call, hash: string -> string)
    requires Plain(i) && Plain(j) && PlainCall(a) && PlainCall(b) && DistinctKeys(a.expected)
    requires Plain(hash(Fingerprint(a.expected))) && Plain(hash(Fingerprint(b.expected)))
    requires hash(Join(MetricParts(i, a, hash))) == hash(Join(MetricParts(j, b, hash)))
    ensures || (i == j && a.evaluators == b.evaluators && SameCase(a, b) && Same(a.expected, b.expected, false))
            || Collision(hash, Fingerprint(a.expected), Fingerprint(b.expected))
            || Collision(hash, Join(MetricParts(i, a, hash)), Join(MetricParts(j, b, hash)))
  {
    if Join(MetricParts(i, a, hash)) == Join(MetricParts(j, b, hash)) {
      PlainParts(i, a, hash);
      PlainParts(j, b, hash);
      JoinInjective(MetricParts(i, a, hash), MetricParts(j, b, hash));
      HeadsAgree(i, j, hash(Fingerprint(a.expected)), hash(Fingerprint(b.expected)), a.evaluators, b.evaluators, Tail(a), Tail(b));
      TailsAgree(a, b);
      FingerprintsAgree(a.expected, b.expected);
    }
  }

  lemma RunKeysDetermineCalls(a: Call, b: Call, hash: string -> string)
    requires PlainCall(a) && PlainCall(b)
    requires hash(Join(AgentRunParts(a))) == hash(Join(AgentRunParts(b)))
    ensures SameCase(a, b) || Collision(hash, Join(AgentRunParts(a)), Join(AgentRunParts(b)))
  {
    var head := ["type:agent_run", "schema:" + SCHEMA_VERSION];
    if Join(AgentRunParts(a)) == Join(AgentRunParts(b)) {
      PlainTail(a);
      PlainTail(b);
      PlainBoth(head, Tail(a));
      PlainBoth(head, Tail(b));
      JoinInjective(AgentRunParts(a), AgentRunParts(b));
      Head(head, head, Tail(a), Tail(b));
      TailsAgree(a, b);
    }
  }

  /** The text of a metric key is never that of an agent run's. */
  lemma KindsApart(identity: string, a: Call, b: Call, hash: string -> string)
    ensures Join(MetricParts(identity, a, hash)) != Join(AgentRunParts(b))
  {
    assert Join(MetricParts(identity, a, hash))[5] == 'm';
    assert Join(AgentRunParts(b))[5] == 'a';
  }

  lemma MovedSeparator(p: string, q: string, r: string)
    ensures Join(["case_name:" + (p + ("|inputs:" + q)), "inputs:" + r]) ==
            Join(["case_name:" + p, "inputs:" + (q + ("|inputs:" + r))])
  {
    assert ["case_name:" + (p + ("|inputs:" + q)), "inputs:" + r][1..] == ["inputs:" + r];
    assert ["case_name:" + p, "inputs:" + (q + ("|inputs:" + r))][1..] == ["inputs:" + (q + ("|inputs:" + r))];
    assert ("case_name:" + (p + ("|inputs:" + q))) + ("|" + ("inputs:" + r)) ==
           ("case_name:" + p) + ("|" + ("inputs:" + (q + ("|inputs:" + r))));
  }

  lemma RunPartsAround(call: Call, head: seq<string>, rest: seq<string>)
    requires head == ["type:agent_run", "schema:" + SCHEMA_VERSION] + ModelParts(call)
    requires rest == ["metadata:" + call.metadata]
                     + (HistoryParts(call) + (OutputParts(call) + ["candidate:" + call.candidate]))
    ensures AgentRunParts(call) == head + (["case_name:" + call.caseName, "inputs:" + call.inputs] + rest)
  {
    var named := ["case_name:" + call.caseName, "inputs:" + call.inputs];
    assert CaseParts(call) == named + ["metadata:" + call.metadata];
  }

  lemma JoinedAlike(head: seq<string>, x: seq<string>, y: seq<string>, rest: seq<string>)
    requires head != [] && x != [] && y != [] && rest != [] && Join(x) == Join(y)
    ensures Join(head + (x + rest)) == Join(head + (y + rest))
  {
    JoinAppend(x, rest);
    JoinAppend(y, rest);
    JoinAppend(head, x + rest);
    JoinAppend(head, y + rest);
  }

  /** A case name that holds a separator and a tag can share its text with a case of another name:
      without the separators' absence the keys do not determine the calls. */
  lemma SeparatorsCollide(call: Call, p: string, q: string, r: string) returns (a: Call, b: Call)
    ensures a == call.(caseName := p + ("|inputs:" + q), inputs := r)
    ensures b == call.(caseName := p, inputs := q + ("|inputs:" + r))
    ensures !SameCase(a, b) && Join(AgentRunParts(a)) == Join(AgentRunParts(b))
  {
    a := call.(caseName := p + ("|inputs:" + q), inputs := r);
    b := call.(caseName := p, inputs := q + ("|inputs:" + r));
    var head := ["type:agent_run", "schema:" + SCHEMA_VERSION] + ModelParts(call);
    var rest := ["metadata:" + call.metadata] + (HistoryParts(call) + (OutputParts(call) + ["candidate:" + call.candidate]));
    RunPartsAround(a, head, rest);
    RunPartsAround(b, head, rest);
    MovedSeparator(p, q, r);
    JoinedAlike(head, ["case_name:" + a.caseName, "inputs:" + a.inputs], ["case_name:" + b.caseName, "inputs:" + b.inputs], rest);
    assert |a.caseName| == |p| + 8 + |q|;
  }
}
