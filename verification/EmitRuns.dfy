/** Concurrent emits: processes with their own sequence counters, threads that allocate, link and
    retry, all creating event files by exclusive create. */
module EmitRuns {
  import opened Options
  import N = EventNames

  /** Sequence counters are per process and producer. */
  datatype Slot = Slot(process: nat, producer: string)

  datatype File = File(ts: nat, producer: string, seqno: nat)
  {
    function Name(): string {
      N.EventName(ts, producer, seqno)
    }
  }

  /** One call of `emit`: `tried` are the numbers it collided with, `collisions` counts them. */
  datatype Emit =
    | Ready(ts: nat, slot: Slot, tried: set<nat>, collisions: nat)
    | Holding(ts: nat, slot: Slot, tried: set<nat>, collisions: nat, seqno: nat)
    | Ended

  datatype State = State(files: set<File>, counters: map<Slot, nat>, emits: seq<Emit>, returned: seq<File>)

  /** `scanned` is what a scan of the directory found; it is used when there is no counter yet. */
  datatype Event =
    | Begin(ts: nat, slot: Slot)
    | Allocate(id: nat, scanned: nat)
    | Link(id: nat)
    | Fail(id: nat, linked: bool)
    | Crash(process: nat)

  const START := State({}, map[], [], [])

  /** The lowered counter of a returned number. */
  function Released(counters: map<Slot, nat>, slot: Slot, seqno: nat): map<Slot, nat> {
    if slot in counters && counters[slot] == seqno + 1 then counters[slot := seqno] else counters
  }

  function Bumped(counters: map<Slot, nat>, slot: Slot, seqno: nat): map<Slot, nat> {
    if slot in counters && counters[slot] > seqno then counters else counters[slot := seqno + 1]
  }

  function AfterCrash(e: Emit, process: nat): Emit {
    if !e.Ended? && e.slot.process == process then Ended else e
  }

  function FileOf(h: Emit): File
    requires h.Holding?
  {
    File(h.ts, h.slot.producer, h.seqno)
  }

  function Step(s: State, e: Event): State {
    match e
    case Begin(ts, slot) => s.(emits := s.emits + [Ready(ts, slot, {}, 0)])
    case Allocate(id, scanned) =>
      if id < |s.emits| && s.emits[id].Ready? then
        var r := s.emits[id];
        var seqno := if r.slot in s.counters then s.counters[r.slot] else scanned;
        s.(counters := s.counters[r.slot := seqno + 1],
           emits := s.emits[id := Holding(r.ts, r.slot, r.tried, r.collisions, seqno)])
      else s
    case Link(id) =>
      if id < |s.emits| && s.emits[id].Holding? then
        var h := s.emits[id];
        var file := FileOf(h);
        if file in s.files then
          s.(counters := Bumped(s.counters, h.slot, h.seqno),
             emits := s.emits[id := Ready(h.ts, h.slot, h.tried + {h.seqno}, h.collisions + 1)])
        else s.(files := s.files + {file}, emits := s.emits[id := Ended], returned := s.returned + [file])
      else s
    case Fail(id, linked) =>
      // A write error, or an error after the file was linked: the number goes back to the pool.
      if id < |s.emits| && s.emits[id].Holding? then
        var h := s.emits[id];
        var file := FileOf(h);
        s.(counters := Released(s.counters, h.slot, h.seqno), emits := s.emits[id := Ended],
           files := if linked then s.files + {file} else s.files)
      else s
    case Crash(process) =>
      s.(counters := map slot | slot in s.counters && slot.process != process :: s.counters[slot],
         emits := seq(|s.emits|, i requires 0 <= i < |s.emits| => AfterCrash(s.emits[i], process)))
  }

  function Run(s: State, events: seq<Event>): State
    decreases |events|
  {
    if events == [] then s else Run(Step(s, events[0]), events[1..])
  }

  lemma {:induction false} RunOneMore(s: State, events: seq<Event>, e: Event)
    ensures Run(s, []) == s && Run(s, events + [e]) == Step(Run(s, events), e)
    decreases |events|
  {
    if events == [] {
      assert ([] + [e])[1..] == [];
    } else {
      RunOneMore(Step(s, events[0]), events[1..], e);
      assert (events + [e])[1..] == events[1..] + [e];
    }
  }

  // ----- what every interleaving keeps -----

  /** One emit and the files and counters. */
  ghost predicate Fits(e: Emit, files: set<File>, counters: map<Slot, nat>) {
    !e.Ended? ==>
      && e.collisions == |e.tried|
      && (forall n :: n in e.tried ==> File(e.ts, e.slot.producer, n) in files)
      && (e.tried != {} || e.Holding? ==> e.slot in counters)
      && (forall n :: n in e.tried ==> n < counters[e.slot])
      && (e.Holding? ==> e.seqno < counters[e.slot])
  }

  /** Two emits: a number is held once, and never by one while another has collided with it. */
  ghost predicate Apart(a: Emit, b: Emit) {
    a.Holding? && !b.Ended? && a.slot == b.slot ==>
      a.seqno !in b.tried && (b.Holding? ==> a.seqno != b.seqno)
  }

  ghost predicate Sound(s: State) {
    && (forall i :: 0 <= i < |s.emits| ==> Fits(s.emits[i], s.files, s.counters))
    && (forall i :: 0 <= i < |s.emits| && s.emits[i].Holding? ==> s.emits[i].seqno !in s.emits[i].tried)
    && (forall i, j :: 0 <= i < |s.emits| && 0 <= j < |s.emits| && i != j ==> Apart(s.emits[i], s.emits[j]))
    && (forall i :: 0 <= i < |s.returned| ==> s.returned[i] in s.files)
    && (forall i, j :: 0 <= i < j < |s.returned| ==> s.returned[i] != s.returned[j])
  }

  lemma AllocateSound(s: State, id: nat, scanned: nat)
    requires Sound(s)
    ensures Sound(Step(s, Allocate(id, scanned)))
  {
    if id < |s.emits| && s.emits[id].Ready? {
      var t := Step(s, Allocate(id, scanned));
      forall i | 0 <= i < |t.emits| ensures Fits(t.emits[i], t.files, t.counters) {
        assert Fits(s.emits[i], s.files, s.counters);
      }
      forall i, j | 0 <= i < |t.emits| && 0 <= j < |t.emits| && i != j ensures Apart(t.emits[i], t.emits[j]) {
        assert Fits(s.emits[i], s.files, s.counters) && Fits(s.emits[j], s.files, s.counters);
        assert Apart(s.emits[i], s.emits[j]);
      }
    }
  }

  lemma CollisionSound(s: State, id: nat)
    requires Sound(s) && id < |s.emits| && s.emits[id].Holding? && FileOf(s.emits[id]) in s.files
    ensures Sound(Step(s, Link(id)))
  {
    var t := Step(s, Link(id));
    forall i | 0 <= i < |t.emits| ensures Fits(t.emits[i], t.files, t.counters) {
      assert Fits(s.emits[i], s.files, s.counters);
    }
    forall i, j | 0 <= i < |t.emits| && 0 <= j < |t.emits| && i != j ensures Apart(t.emits[i], t.emits[j]) {
      assert Apart(s.emits[i], s.emits[j]);
    }
  }

  /** A new file differs from every file returned before. */
  lemma CreationSound(s: State, id: nat)
    requires Sound(s) && id < |s.emits| && s.emits[id].Holding? && FileOf(s.emits[id]) !in s.files
    ensures Sound(Step(s, Link(id)))
  {
    var t := Step(s, Link(id));
    forall i | 0 <= i < |t.emits| ensures Fits(t.emits[i], t.files, t.counters) {
      assert Fits(s.emits[i], s.files, s.counters);
    }
    forall i, j | 0 <= i < |t.emits| && 0 <= j < |t.emits| && i != j ensures Apart(t.emits[i], t.emits[j]) {
      assert Apart(s.emits[i], s.emits[j]);
    }
    forall i | 0 <= i < |s.returned| ensures s.returned[i] != FileOf(s.emits[id]) {
      assert s.returned[i] in s.files;
    }
  }

  lemma LinkSound(s: State, id: nat)
    requires Sound(s)
    ensures Sound(Step(s, Link(id)))
  {
    if id < |s.emits| && s.emits[id].Holding? {
      if FileOf(s.emits[id]) in s.files {
        CollisionSound(s, id);
      } else {
        CreationSound(s, id);
      }
    }
  }

  lemma FailSound(s: State, id: nat, linked: bool)
    requires Sound(s)
    ensures Sound(Step(s, Fail(id, linked)))
  {
    if id < |s.emits| && s.emits[id].Holding? {
      var t := Step(s, Fail(id, linked));
      forall i | 0 <= i < |t.emits| ensures Fits(t.emits[i], t.files, t.counters) {
        assert Fits(s.emits[i], s.files, s.counters);
        if i != id {
          assert Apart(s.emits[id], s.emits[i]);
        }
      }
      forall i, j | 0 <= i < |t.emits| && 0 <= j < |t.emits| && i != j ensures Apart(t.emits[i], t.emits[j]) {
        assert Apart(s.emits[i], s.emits[j]);
      }
    }
  }

  lemma CrashSound(s: State, process: nat)
    requires Sound(s)
    ensures Sound(Step(s, Crash(process)))
  {
    var t := Step(s, Crash(process));
    forall i | 0 <= i < |t.emits| ensures Fits(t.emits[i], t.files, t.counters) {
      assert Fits(s.emits[i], s.files, s.counters);
    }
    forall i, j | 0 <= i < |t.emits| && 0 <= j < |t.emits| && i != j ensures Apart(t.emits[i], t.emits[j]) {
      assert Apart(s.emits[i], s.emits[j]);
    }
  }

  lemma StepSound(s: State, e: Event)
    requires Sound(s)
    ensures Sound(Step(s, e))
  {
    match e
    case Begin(ts, slot) =>
    case Allocate(id, scanned) => AllocateSound(s, id, scanned);
    case Link(id) => LinkSound(s, id);
    case Fail(id, linked) => FailSound(s, id, linked);
    case Crash(process) => CrashSound(s, process);
  }

  lemma {:induction false} RunSound(s: State, events: seq<Event>)
    requires Sound(s)
    ensures Sound(Run(s, events))
    decreases |events|
  {
    if events != [] {
      StepSound(s, events[0]);
      RunSound(Step(s, events[0]), events[1..]);
    }
  }

  /** No two emits ever return the same event id. */
  lemma IdsNeverShared(events: seq<Event>, i: nat, j: nat)
    requires var r := Run(START, events).returned; i < |r| && j < |r| && i != j
    ensures var r := Run(START, events).returned; r[i].Name() != r[j].Name()
  {
    RunSound(START, events);
    var r := Run(START, events).returned;
    assert r[i] != r[j];
    N.EventNamesDiffer(r[i].ts, r[i].producer, r[i].seqno, r[j].ts, r[j].producer, r[j].seqno);
  }

  ghost function Rivals(files: set<File>, ts: nat, producer: string): set<File> {
    set f | f in files && f.ts == ts && f.producer == producer
  }

  lemma {:induction false} InjectedSize(tried: set<nat>, rivals: set<File>, ts: nat, producer: string)
    requires forall n :: n in tried ==> File(ts, producer, n) in rivals
    ensures |tried| <= |rivals|
    decreases |tried|
  {
    if tried != {} {
      var n :| n in tried;
      InjectedSize(tried - {n}, rivals - {File(ts, producer, n)}, ts, producer);
    }
  }

  /** Retrying terminates: at any time an emit has collided at most once per file that has its
      timestamp and producer, whatever other threads, processes, failures and crashes do. */
  lemma CollisionsBounded(events: seq<Event>, id: nat)
    requires id < |Run(START, events).emits| && !Run(START, events).emits[id].Ended?
    ensures var s := Run(START, events);
      var e := s.emits[id];
      e.collisions <= |Rivals(s.files, e.ts, e.slot.producer)|
  {
    RunSound(START, events);
    CollisionsCounted(Run(START, events), id);
  }

  /** One try of the retry loop: take a number and link the file. */
  function Try(s: State, id: nat, scanned: nat): State {
    Step(Step(s, Allocate(id, scanned)), Link(id))
  }

  function Tries(s: State, id: nat, scanned: nat, n: nat): State
    decreases n
  {
    if n == 0 then s else Tries(Try(s, id, scanned), id, scanned, n - 1)
  }

  /** Nothing but this emit's new file was added between two states. */
  ghost predicate Emitted(s: State, id: nat, t: State, file: File)
    requires id < |s.emits| && s.emits[id].Ready?
  {
    && file.ts == s.emits[id].ts && file.producer == s.emits[id].slot.producer && file !in s.files
    && t.files == s.files + {file} && t.returned == s.returned + [file]
  }

  /** A try creates and returns a new file, or leaves the files alone and can be repeated. */
  lemma OneTry(s: State, id: nat, scanned: nat) returns (file: File)
    requires Sound(s) && id < |s.emits| && s.emits[id].Ready?
    ensures var t := Try(s, id, scanned);
      && Sound(t) && id < |t.emits|
      && (t.emits[id].Ended? ==> Emitted(s, id, t, file))
      && (!t.emits[id].Ended? ==>
            && t.emits[id].Ready? && t.emits[id].ts == s.emits[id].ts && t.emits[id].slot == s.emits[id].slot
            && t.emits[id].collisions == s.emits[id].collisions + 1
            && t.files == s.files && t.returned == s.returned)
  {
    StepSound(s, Allocate(id, scanned));
    var h := Step(s, Allocate(id, scanned));
    StepSound(h, Link(id));
    file := FileOf(h.emits[id]);
  }

  lemma EndedStays(s: State, id: nat, scanned: nat, n: nat)
    requires id < |s.emits| && s.emits[id].Ended?
    ensures Tries(s, id, scanned, n) == s
  {
  }

  lemma CollisionsCounted(s: State, id: nat)
    requires Sound(s) && id < |s.emits| && !s.emits[id].Ended?
    ensures s.emits[id].collisions <= |Rivals(s.files, s.emits[id].ts, s.emits[id].slot.producer)|
  {
    var e := s.emits[id];
    assert Fits(e, s.files, s.counters);
    InjectedSize(e.tried, Rivals(s.files, e.ts, e.slot.producer), e.ts, e.slot.producer);
  }

  lemma {:induction false} TriesEnd(s: State, id: nat, scanned: nat, n: nat) returns (file: File)
    requires Sound(s) && id < |s.emits| && s.emits[id].Ready?
    requires n + s.emits[id].collisions > |Rivals(s.files, s.emits[id].ts, s.emits[id].slot.producer)|
    ensures var t := Tries(s, id, scanned, n);
      id < |t.emits| && t.emits[id].Ended? && Emitted(s, id, t, file)
    decreases n
  {
    CollisionsCounted(s, id);
    file := OneTry(s, id, scanned);
    var t := Try(s, id, scanned);
    if t.emits[id].Ended? {
      EndedStays(t, id, scanned, n - 1);
    } else {
      file := TriesEnd(t, id, scanned, n - 1);
    }
  }

  /** After any run an emit that is left to itself returns a new file of its own: at the latest at
      one try more than there are files with its timestamp and producer. */
  lemma EmitReturns(events: seq<Event>, id: nat, scanned: nat) returns (file: File)
    requires id < |Run(START, events).emits| && Run(START, events).emits[id].Ready?
    ensures var s := Run(START, events);
      var n := |Rivals(s.files, s.emits[id].ts, s.emits[id].slot.producer)| + 1;
      var t := Tries(s, id, scanned, n);
      id < |t.emits| && t.emits[id].Ended? && Emitted(s, id, t, file)
  {
    RunSound(START, events);
    var s := Run(START, events);
    file := TriesEnd(s, id, scanned, |Rivals(s.files, s.emits[id].ts, s.emits[id].slot.producer)| + 1);
  }

  /** A number that failed is handed out again when no later one was taken meanwhile. */
  lemma FailedNumberReturns(events: seq<Event>, id: nat, linked: bool, other: nat, scanned: nat)
    requires var s := Run(START, events);
      && id < |s.emits| && s.emits[id].Holding? && other < |s.emits| && s.emits[other].Ready?
      && s.emits[other].slot == s.emits[id].slot
    ensures var s := Run(START, events);
      var h := s.emits[id];
      var t := Step(Step(s, Fail(id, linked)), Allocate(other, scanned));
      && h.slot in s.counters && t.emits[id].Ended? && t.emits[other].Holding?
      && t.emits[other].seqno == (if s.counters[h.slot] == h.seqno + 1 then h.seqno else s.counters[h.slot])
  {
    RunSound(START, events);
    assert Fits(Run(START, events).emits[id], Run(START, events).files, Run(START, events).counters);
  }

  /** A crash ends the emits of its process and forgets its counters, and nothing else. */
  lemma CrashIsLocal(s: State, process: nat)
    ensures var t := Step(s, Crash(process));
      && t.files == s.files && t.returned == s.returned && |t.emits| == |s.emits|
      && (forall i :: 0 <= i < |s.emits| ==>
            t.emits[i] == if s.emits[i].Ended? || s.emits[i].slot.process == process then Ended else s.emits[i])
      && (forall slot :: slot in t.counters <==> slot in s.counters && slot.process != process)
      && (forall slot :: slot in t.counters ==> t.counters[slot] == s.counters[slot])
  {
  }
}
