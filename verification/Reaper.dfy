/** Reaper passes: concurrent, crashing, and synthesizing each event at most once. */
module Reaper {
  import opened Options
  import N = EventNames

  type Signal = N.Signal

  /** The sentinel name of a signal. */
  type Namer = Signal -> string

  /** A pass works through its signals; between claiming a sentinel and emitting it holds one. */
  datatype Pass = Pass(left: seq<Signal>, claimed: Option<Signal>)

  /** `lost` are claims whose pass died before emitting. */
  datatype State = State(sentinels: set<string>, passes: seq<Pass>, emitted: seq<Signal>, lost: seq<Signal>)

  datatype Event = Start(signals: seq<Signal>) | Claim(id: nat) | Emit(id: nat) | Crash(id: nat)

  const START := State({}, [], [], [])

  function Step(s: State, e: Event, name: Namer): State {
    match e
    case Start(signals) => s.(passes := s.passes + [Pass(signals, None)])
    case Claim(id) =>
      if id < |s.passes| && s.passes[id].claimed.None? && s.passes[id].left != [] then
        var pass := s.passes[id];
        var signal := pass.left[0];
        var key := name(signal);
        if key in s.sentinels then s.(passes := s.passes[id := pass.(left := pass.left[1..])])
        else s.(sentinels := s.sentinels + {key}, passes := s.passes[id := Pass(pass.left[1..], Some(signal))])
      else s
    case Emit(id) =>
      if id < |s.passes| && s.passes[id].claimed.Some? then
        s.(emitted := s.emitted + [s.passes[id].claimed.value], passes := s.passes[id := s.passes[id].(claimed := None)])
      else s
    case Crash(id) =>
      if id < |s.passes| then
        s.(lost := if s.passes[id].claimed.Some? then s.lost + [s.passes[id].claimed.value] else s.lost,
           passes := s.passes[id := Pass([], None)])
      else s
  }

  function Run(s: State, events: seq<Event>, name: Namer): State
    decreases |events|
  {
    if events == [] then s else Run(Step(s, events[0], name), events[1..], name)
  }

  lemma {:induction false} RunOneMore(s: State, events: seq<Event>, e: Event, name: Namer)
    ensures Run(s, [], name) == s && Run(s, events + [e], name) == Step(Run(s, events, name), e, name)
    decreases |events|
  {
    if events == [] {
      assert ([] + [e])[1..] == [];
    } else {
      RunOneMore(Step(s, events[0], name), events[1..], e, name);
      assert (events + [e])[1..] == events[1..] + [e];
    }
  }

  // ----- counting -----

  function One(condition: bool): nat {
    if condition then 1 else 0
  }

  function Count(signals: seq<Signal>, name: Namer, key: string): nat {
    if signals == [] then 0
    else Count(signals[..|signals| - 1], name, key) + One(name(signals[|signals| - 1]) == key)
  }

  function HeldBy(pass: Pass, name: Namer, key: string): nat {
    One(pass.claimed.Some? && name(pass.claimed.value) == key)
  }

  /** Claims of `key` not yet emitted. */
  function Held(passes: seq<Pass>, name: Namer, key: string): nat {
    if passes == [] then 0 else Held(passes[..|passes| - 1], name, key) + HeldBy(passes[|passes| - 1], name, key)
  }

  lemma CountOneMore(signals: seq<Signal>, signal: Signal, name: Namer, key: string)
    ensures Count(signals + [signal], name, key) == Count(signals, name, key) + One(name(signal) == key)
  {
    assert (signals + [signal])[..|signals|] == signals;
  }

  lemma HeldOneMore(passes: seq<Pass>, pass: Pass, name: Namer, key: string)
    ensures Held(passes + [pass], name, key) == Held(passes, name, key) + HeldBy(pass, name, key)
  {
    assert (passes + [pass])[..|passes|] == passes;
  }

  lemma {:induction false} HeldChanges(passes: seq<Pass>, id: nat, pass: Pass, name: Namer, key: string)
    requires id < |passes|
    ensures Held(passes[id := pass], name, key) + HeldBy(passes[id], name, key) ==
            Held(passes, name, key) + HeldBy(pass, name, key)
    decreases |passes|
  {
    var last := |passes| - 1;
    var changed := passes[id := pass];
    if id < last {
      HeldChanges(passes[..last], id, pass, name, key);
      assert changed[..last] == passes[..last][id := pass];
    } else {
      assert changed[..last] == passes[..last];
    }
  }

  /** A sentinel stands for exactly one signal: emitted, held, or lost with its pass. */
  ghost predicate Sound(s: State, name: Namer, key: string) {
    Count(s.emitted, name, key) + Held(s.passes, name, key) + Count(s.lost, name, key) == One(key in s.sentinels)
  }

  lemma ClaimSound(s: State, id: nat, name: Namer, key: string)
    requires Sound(s, name, key)
    ensures Sound(Step(s, Claim(id), name), name, key)
  {
    if id < |s.passes| && s.passes[id].claimed.None? && s.passes[id].left != [] {
      HeldChanges(s.passes, id, Step(s, Claim(id), name).passes[id], name, key);
    }
  }

  lemma EmitSound(s: State, id: nat, name: Namer, key: string)
    requires Sound(s, name, key)
    ensures Sound(Step(s, Emit(id), name), name, key)
  {
    if id < |s.passes| && s.passes[id].claimed.Some? {
      HeldChanges(s.passes, id, s.passes[id].(claimed := None), name, key);
      CountOneMore(s.emitted, s.passes[id].claimed.value, name, key);
    }
  }

  lemma CrashSound(s: State, id: nat, name: Namer, key: string)
    requires Sound(s, name, key)
    ensures Sound(Step(s, Crash(id), name), name, key)
  {
    if id < |s.passes| {
      HeldChanges(s.passes, id, Pass([], None), name, key);
      if s.passes[id].claimed.Some? {
        CountOneMore(s.lost, s.passes[id].claimed.value, name, key);
      }
    }
  }

  lemma {:induction false} RunSound(s: State, events: seq<Event>, name: Namer, key: string)
    requires Sound(s, name, key)
    ensures Sound(Run(s, events, name), name, key)
    decreases |events|
  {
    if events != [] {
      match events[0] {
        case Start(signals) => HeldOneMore(s.passes, Pass(signals, None), name, key);
        case Claim(id) => ClaimSound(s, id, name, key);
        case Emit(id) => EmitSound(s, id, name, key);
        case Crash(id) => CrashSound(s, id, name, key);
      }
      RunSound(Step(s, events[0], name), events[1..], name, key);
    }
  }

  lemma {:induction false} CountsEach(signals: seq<Signal>, i: nat, name: Namer)
    requires i < |signals|
    ensures Count(signals, name, name(signals[i])) >= 1
    decreases |signals|
  {
    if i < |signals| - 1 {
      CountsEach(signals[..|signals| - 1], i, name);
    }
  }

  lemma {:induction false} CountsBoth(signals: seq<Signal>, i: nat, j: nat, name: Namer)
    requires i < j < |signals| && name(signals[i]) == name(signals[j])
    ensures Count(signals, name, name(signals[i])) >= 2
    decreases |signals|
  {
    var last := |signals| - 1;
    if j < last {
      CountsBoth(signals[..last], i, j, name);
    } else {
      CountsEach(signals[..last], i, name);
    }
  }

  /** A claimed event is emitted, unless its pass has not got there or died in between; a later
      pass never makes up for a lost one. */
  lemma ClaimedOnce(events: seq<Event>, name: Namer, key: string)
    ensures var s := Run(START, events, name);
      Count(s.emitted, name, key) + Held(s.passes, name, key) + Count(s.lost, name, key) == One(key in s.sentinels)
  {
    RunSound(START, events, name, key);
  }

  lemma NamesOnce(events: seq<Event>, name: Namer, i: nat, j: nat)
    requires i < j < |Run(START, events, name).emitted|
    ensures var emitted := Run(START, events, name).emitted; name(emitted[i]) != name(emitted[j])
  {
    var s := Run(START, events, name);
    if name(s.emitted[i]) == name(s.emitted[j]) {
      ClaimedOnce(events, name, name(s.emitted[i]));
      CountsBoth(s.emitted, i, j, name);
      assert false;
    }
  }

  /** Any interleaving of passes, crashes included, emits at most one event per lane and epoch and
      at most one per iteration. */
  lemma EmittedOnce(events: seq<Event>, i: nat, j: nat)
    requires i < j < |Run(START, events, N.ReaperKey).emitted|
    ensures var emitted := Run(START, events, N.ReaperKey).emitted;
      var a, b := emitted[i], emitted[j];
      && (a.LaneStalled? && b.LaneStalled? ==> a.lane != b.lane || a.epoch != b.epoch)
      && (a.SelectionDue? && b.SelectionDue? ==> a.iteration != b.iteration)
  {
    NamesOnce(events, N.ReaperKey, i, j);
    var emitted := Run(START, events, N.ReaperKey).emitted;
    N.ReaperKeysDiffer(emitted[i], emitted[j]);
  }

  // ----- a pass that is left to itself -----

  /** One signal of a pass: claim its sentinel, and emit if the claim succeeded. */
  function Round(s: State, id: nat, name: Namer): State {
    Step(Step(s, Claim(id), name), Emit(id), name)
  }

  function Rounds(s: State, id: nat, n: nat, name: Namer): State
    decreases n
  {
    if n == 0 then s else Rounds(Round(s, id, name), id, n - 1, name)
  }

  /** `emitted` has, in the order of `signals`, the first one for every key that was not taken. */
  ghost predicate FirstOfEach(signals: seq<Signal>, taken: set<string>, emitted: seq<Signal>, name: Namer)
    decreases |signals|
  {
    if signals == [] then emitted == []
    else if name(signals[0]) in taken then FirstOfEach(signals[1..], taken, emitted, name)
    else
      && emitted != [] && emitted[0] == signals[0]
      && FirstOfEach(signals[1..], taken + {name(signals[0])}, emitted[1..], name)
  }

  lemma RoundExactly(s: State, id: nat, name: Namer)
    requires id < |s.passes| && s.passes[id].claimed.None? && s.passes[id].left != []
    ensures var signal, t := s.passes[id].left[0], Round(s, id, name);
      && |t.passes| == |s.passes| && t.passes[id] == Pass(s.passes[id].left[1..], None)
      && t.sentinels == s.sentinels + {name(signal)}
      && t.emitted == s.emitted + (if name(signal) in s.sentinels then [] else [signal])
  {
  }

  /** A pass that no other disturbs synthesizes the first signal for every key without a sentinel,
      in order, and leaves a sentinel for every key. */
  lemma {:induction false} PassFinishes(s: State, id: nat, name: Namer)
    requires id < |s.passes| && s.passes[id].claimed.None?
    ensures var signals := s.passes[id].left;
      var t := Rounds(s, id, |signals|, name);
      && |t.passes| == |s.passes| && t.passes[id] == Pass([], None)
      && (forall x :: x in signals ==> name(x) in t.sentinels) && s.sentinels <= t.sentinels
      && s.emitted <= t.emitted && FirstOfEach(signals, s.sentinels, t.emitted[|s.emitted|..], name)
    decreases |s.passes[id].left|
  {
    var signals := s.passes[id].left;
    if signals != [] {
      var u := Round(s, id, name);
      RoundExactly(s, id, name);
      PassFinishes(u, id, name);
      var t := Rounds(s, id, |signals|, name);
      assert t == Rounds(u, id, |signals[1..]|, name);
      assert signals == [signals[0]] + signals[1..];
      var all := t.emitted[|s.emitted|..];
      if name(signals[0]) in s.sentinels {
        assert s.sentinels + {name(signals[0])} == s.sentinels;
      } else {
        assert u.emitted[|s.emitted|] == signals[0] && all[0] == signals[0];
        assert all[1..] == t.emitted[|u.emitted|..];
      }
    }
  }
}
