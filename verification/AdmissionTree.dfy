/** Nested admission over a tree of ledgers, with waiting, waking and the reflection barrier.

    A rollout passes the gates of its ancestry from the root to its own ledger and gives the
    slots back in the opposite order; a reflection takes the outermost capped ledger among
    its proper ancestors.  Each event is one stretch of code between two awaits.  A task that
    must wait sleeps on one ledger's condition until a notification on that ledger.  A move
    that `raises` is one in which the task is cancelled, or a check of a reflection fails. */
module AdmissionTree {
  import opened Options
  import opened Meters

  /** `Asking` is about to try the gate at `path[level]`; `Notifying` has given up the slot
      at `path[level]` and has yet to notify its condition. */
  datatype Status = Asking | Sleeping | Running | Leaving | Notifying | Done

  /** `leaf` is the ledger the task runs under.  `path` lists the gates still or already passed,
      outermost first: the whole ancestry of a rollout, at most one ledger for a reflection. */
  datatype Task = Task(reflection: bool, kind: Kind, leaf: nat, path: seq<nat>, level: nat, held: seq<real>, status: Status)

  datatype State = State(parents: seq<Option<nat>>, meters: seq<Meter>, tasks: seq<Task>)

  datatype Event =
    | Move(task: nat, reserve: real, raises: bool)
    | Ledgers(meters: seq<Meter>)
    | Spawn(reflection: bool, kind: Kind, leaf: nat)

  ghost predicate ValidParents(parents: seq<Option<nat>>) {
    forall i :: 0 <= i < |parents| && parents[i].Some? ==> parents[i].value < i
  }

  function Depth(parents: seq<Option<nat>>, n: nat): nat
    requires n < |parents| && ValidParents(parents)
  {
    if parents[n].None? then 0 else 1 + Depth(parents, parents[n].value)
  }

  /** The ancestry of a ledger, outermost first. */
  function Ancestry(parents: seq<Option<nat>>, n: nat): (path: seq<nat>)
    requires n < |parents| && ValidParents(parents)
  {
    (if parents[n].None? then [] else Ancestry(parents, parents[n].value)) + [n]
  }

  /** The gate of a reflection at ledger `n`: the outermost capped proper ancestor, if any. */
  function Barrier(path: seq<nat>, meters: seq<Meter>): (gate: seq<nat>)
    requires forall k :: 0 <= k < |path| ==> path[k] < |meters|
    ensures |gate| <= 1 && forall g :: g in gate ==> g in path
  {
    if |path| <= 1 then []
    else if meters[path[0]].cap.Some? then [path[0]]
    else Barrier(path[1..], meters)
  }

  function Notify(tasks: seq<Task>, n: nat): (r: seq<Task>)
    ensures |r| == |tasks|
  {
    seq(|tasks|, i requires 0 <= i < |tasks| =>
      var t := tasks[i];
      if t.status.Sleeping? && t.level < |t.path| && t.path[t.level] == n then t.(status := Asking) else t)
  }

  predicate TaskOk(t: Task, n: nat) {
    && |t.held| == t.level <= |t.path|
    && (forall j :: 0 <= j < |t.path| ==> t.path[j] < n)
    && (t.reflection ==> |t.path| <= 1)
    && (t.status.Sleeping? || t.status.Notifying? ==> t.level < |t.path|)
    && (t.status.Running? ==> t.level == |t.path|)
    && (t.status.Done? ==> t.level == 0)
  }

  /** The state after a task has passed the gate in front of it. */
  function Passed(t: Task, reservation: real): Task {
    t.(level := t.level + 1, held := t.held + [reservation],
       status := if t.level + 1 == |t.path| then Running else Asking)
  }

  function Ask(s: State, i: nat, reserve: real, raises: bool): State
    requires i < |s.tasks| && TaskOk(s.tasks[i], |s.meters|)
    requires s.tasks[i].status.Asking?
  {
    var t := s.tasks[i];
    if t.level == |t.path| then s.(tasks := s.tasks[i := t.(status := Running)])
    else
      var n := t.path[t.level];
      var m := s.meters[n];
      if t.reflection then
        if m.reflecting || m.active.training != 0 || m.active.validation != 0 then
          s.(tasks := s.tasks[i := t.(status := if raises then Leaving else Sleeping)])
        else if raises then s.(tasks := s.tasks[i := t.(status := Leaving)])
        else s.(meters := s.meters[n := m.(reflecting := true)], tasks := s.tasks[i := Passed(t, 0.0)])
      else if !m.Gated() then s.(tasks := s.tasks[i := Passed(t, 0.0)])
      else if raises then s.(tasks := s.tasks[i := t.(status := Leaving)])
      else
        var (m', answer) := TryAdmit(m, reserve, t.kind);
        match answer
        case Admits(reservation) =>
          s.(meters := s.meters[n := Hold(m', t.kind, reservation)], tasks := s.tasks[i := Passed(t, reservation)])
        case Waits => s.(meters := s.meters[n := m'], tasks := s.tasks[i := t.(status := Sleeping)])
        case Refuses =>
          // The waiting rollouts are woken to observe the stop.
          s.(meters := s.meters[n := m'], tasks := Notify(s.tasks[i := t.(status := Leaving)], n))
  }

  /** Give up the innermost slot that is still held. */
  function LetGo(s: State, i: nat): State
    requires i < |s.tasks| && TaskOk(s.tasks[i], |s.meters|) && s.tasks[i].status.Leaving?
  {
    var t := s.tasks[i];
    if t.level == 0 then s.(tasks := s.tasks[i := t.(status := Done)])
    else
      var n := t.path[t.level - 1];
      var m := s.meters[n];
      var back := t.(level := t.level - 1, held := t.held[..t.level - 1]);
      if t.reflection then
        s.(meters := s.meters[n := m.(reflecting := false)], tasks := s.tasks[i := back.(status := Notifying)])
      else if !m.Gated() then s.(tasks := s.tasks[i := back])
      else
        s.(meters := s.meters[n := Release(m, t.kind, t.held[t.level - 1])],
           tasks := s.tasks[i := back.(status := Notifying)])
  }

  /** Spending, observing and stopping change a ledger, never its slots. */
  predicate SameSlots(a: Meter, b: Meter) {
    && a.cap == b.cap && a.maxConcurrent == b.maxConcurrent
    && a.active == b.active && a.reserved == b.reserved && a.reflecting == b.reflecting
  }

  function Step(s: State, e: Event): State
    requires ValidParents(s.parents) && |s.parents| == |s.meters|
    requires forall i :: 0 <= i < |s.tasks| ==> TaskOk(s.tasks[i], |s.meters|)
  {
    match e
    case Spawn(reflection, kind, leaf) =>
      if leaf >= |s.meters| then s
      else
        AncestryInRange(s.parents, leaf);
        var path := Ancestry(s.parents, leaf);
        s.(tasks := s.tasks + [Task(reflection, kind, leaf, if reflection then Barrier(path, s.meters) else path, 0, [], Asking)])
    case Ledgers(meters) =>
      if |meters| == |s.meters| && forall n :: 0 <= n < |meters| ==> SameSlots(s.meters[n], meters[n]) then
        s.(meters := meters)
      else s
    case Move(i, reserve, raises) =>
      if i >= |s.tasks| then s
      else
        var t := s.tasks[i];
        assert TaskOk(t, |s.meters|);
        match t.status
        case Asking => Ask(s, i, reserve, raises)
        case Running => s.(tasks := s.tasks[i := t.(status := Leaving)])
        case Leaving => LetGo(s, i)
        case Notifying =>
          // Cancelled while it waits for the condition's lock, it notifies nobody.
          var left := s.tasks[i := t.(status := Leaving)];
          s.(tasks := if raises then left else Notify(left, t.path[t.level]))
        case Sleeping => if raises then s.(tasks := s.tasks[i := t.(status := Leaving)]) else s
        case Done => s
  }

  lemma {:induction false} AncestryInRange(parents: seq<Option<nat>>, n: nat)
    requires n < |parents| && ValidParents(parents)
    ensures |Ancestry(parents, n)| == Depth(parents, n) + 1
    ensures forall j :: 0 <= j < |Ancestry(parents, n)| ==>
              Ancestry(parents, n)[j] < |parents| && Depth(parents, Ancestry(parents, n)[j]) == j
  {
    if parents[n].Some? {
      AncestryInRange(parents, parents[n].value);
    }
  }

  // ----- what every event keeps -----

  predicate Holds(t: Task, n: nat, kind: Kind) {
    !t.reflection && t.kind == kind && t.level <= |t.path| && n in t.path[..t.level]
  }

  ghost function Holders(s: State, n: nat, kind: Kind): set<nat> {
    set i | 0 <= i < |s.tasks| && Holds(s.tasks[i], n, kind)
  }

  /** Shape of the state. */
  ghost predicate Shape(s: State) {
    && ValidParents(s.parents) && |s.parents| == |s.meters|
    && (forall i :: 0 <= i < |s.tasks| ==> TaskOk(s.tasks[i], |s.meters|))
    && (forall i, j :: 0 <= i < |s.tasks| && !s.tasks[i].reflection && 0 <= j < |s.tasks[i].path| ==>
          Depth(s.parents, s.tasks[i].path[j]) == j)
  }

  /** Slots are held by exactly the rollouts inside the gate. */
  ghost predicate SlotsHeld(s: State)
    requires Shape(s)
  {
    forall n, k :: 0 <= n < |s.meters| ==>
      s.meters[n].active.Get(k) == if s.meters[n].Gated() then |Holders(s, n, k)| else 0
  }

  /** A ledger that reflects is held by a reflection, and by no rollout. */
  ghost predicate BarrierHeld(s: State)
    requires Shape(s)
  {
    forall n :: 0 <= n < |s.meters| && s.meters[n].reflecting ==>
      && s.meters[n].active == PerKind(0, 0)
      && exists i :: 0 <= i < |s.tasks| && Inside(s.tasks[i], n)
  }

  predicate Inside(t: Task, n: nat) {
    t.reflection && t.path == [n] && t.level == 1
  }

  predicate SleepsAt(t: Task, n: nat) {
    t.status.Sleeping? && t.level < |t.path| && t.path[t.level] == n
  }

  predicate WillNotify(t: Task, n: nat) {
    t.status.Notifying? && t.level < |t.path| && t.path[t.level] == n
  }

  predicate Busy(m: Meter) {
    m.reflecting || m.active.training != 0 || m.active.validation != 0
  }

  /** No lost wake-up: whoever sleeps on a ledger will be notified, because the ledger is
      busy or a notification is on its way. */
  ghost predicate SleepersWatched(s: State)
    requires Shape(s)
  {
    forall i, n :: 0 <= i < |s.tasks| && 0 <= n < |s.meters| && SleepsAt(s.tasks[i], n) ==>
      Busy(s.meters[n]) || exists j :: 0 <= j < |s.tasks| && WillNotify(s.tasks[j], n)
  }

  /** What every event keeps. */
  ghost predicate Orderly(s: State) {
    Shape(s) && SlotsHeld(s) && BarrierHeld(s)
  }

  /** What every event keeps but the loss of a notification. */
  ghost predicate Good(s: State) {
    Orderly(s) && SleepersWatched(s)
  }

  /** The event cancels a notification that is on its way. */
  predicate Loses(s: State, e: Event) {
    e.Move? && e.raises && e.task < |s.tasks| && s.tasks[e.task].status.Notifying?
  }

  ghost predicate Initial(s: State) {
    && ValidParents(s.parents) && |s.parents| == |s.meters| && s.tasks == []
    && forall n :: 0 <= n < |s.meters| ==> s.meters[n].active == PerKind(0, 0) && !s.meters[n].reflecting
  }

  lemma InitialIsGood(s: State)
    requires Initial(s)
    ensures Good(s)
  {
  }

  lemma SpawnShape(s: State, e: Event)
    requires Shape(s) && e.Spawn?
    ensures Shape(Step(s, e))
  {
    if e.leaf < |s.meters| {
      AncestryInRange(s.parents, e.leaf);
      var path := Ancestry(s.parents, e.leaf);
      var t := Task(e.reflection, e.kind, e.leaf, if e.reflection then Barrier(path, s.meters) else path, 0, [], Asking);
      assert forall j :: 0 <= j < |t.path| ==> t.path[j] in path;
      assert TaskOk(t, |s.meters|);
      assert Step(s, e).tasks == s.tasks + [t];
    }
  }

  /** One task moves on and one ledger may change. */
  lemma PutShape(s: State, t: State, i: nat)
    requires Shape(s) && i < |s.tasks| && |t.tasks| == |s.tasks| && t.parents == s.parents
    requires |t.meters| == |s.meters|
    requires forall j :: 0 <= j < |s.tasks| && j != i ==> t.tasks[j] == s.tasks[j]
    requires TaskOk(t.tasks[i], |s.meters|)
    requires t.tasks[i].path == s.tasks[i].path && t.tasks[i].reflection == s.tasks[i].reflection
    ensures Shape(t)
  {
  }

  lemma NotifyShape(s: State, n: nat)
    requires Shape(s)
    ensures Shape(s.(tasks := Notify(s.tasks, n)))
  {
    var t := s.(tasks := Notify(s.tasks, n));
    forall i | 0 <= i < |t.tasks|
      ensures TaskOk(t.tasks[i], |t.meters|) && t.tasks[i].path == s.tasks[i].path
              && t.tasks[i].reflection == s.tasks[i].reflection
    {
      assert TaskOk(s.tasks[i], |s.meters|);
    }
  }

  lemma AskShape(s: State, i: nat, reserve: real, raises: bool)
    requires Shape(s) && i < |s.tasks| && s.tasks[i].status.Asking?
    ensures Shape(Ask(s, i, reserve, raises))
  {
    var t := s.tasks[i];
    if t.level < |t.path| && !t.reflection && s.meters[t.path[t.level]].Gated()
       && TryAdmit(s.meters[t.path[t.level]], reserve, t.kind).1.Refuses? {
      var n := t.path[t.level];
      var u := s.(meters := s.meters[n := TryAdmit(s.meters[n], reserve, t.kind).0],
                  tasks := s.tasks[i := t.(status := Leaving)]);
      PutShape(s, u, i);
      NotifyShape(u, n);
    } else {
      PutShape(s, Ask(s, i, reserve, raises), i);
    }
  }

  lemma StepShape(s: State, e: Event)
    requires Shape(s)
    ensures Shape(Step(s, e))
  {
    match e
    case Spawn(_, _, _) => SpawnShape(s, e);
    case Ledgers(_) =>
    case Move(i, reserve, raises) =>
      if i < |s.tasks| {
        var t := s.tasks[i];
        assert TaskOk(t, |s.meters|);
        match t.status
        case Asking => AskShape(s, i, reserve, raises);
        case Notifying =>
          var u := s.(tasks := s.tasks[i := t.(status := Leaving)]);
          PutShape(s, u, i);
          NotifyShape(u, t.path[t.level]);
        case Leaving => PutShape(s, LetGo(s, i), i);
        case Running => PutShape(s, Step(s, e), i);
        case Sleeping => PutShape(s, Step(s, e), i);
        case Done =>
      }
  }

  // ----- slots are held by exactly the rollouts inside -----

  function One(b: bool): int {
    if b then 1 else 0
  }

  lemma SizesDiffer(a: set<nat>, b: set<nat>, i: nat)
    requires a - {i} == b - {i}
    ensures |b| == |a| + One(i in b) - One(i in a)
  {
    var rest := a - {i};
    assert a == if i in a then rest + {i} else rest;
    assert b == if i in b then rest + {i} else rest;
  }

  lemma HoldersOne(s: State, t: State, i: nat, n: nat, kind: Kind)
    requires i < |s.tasks| && |t.tasks| == |s.tasks|
    requires forall j :: 0 <= j < |s.tasks| && j != i ==> Holds(t.tasks[j], n, kind) == Holds(s.tasks[j], n, kind)
    ensures |Holders(t, n, kind)| == |Holders(s, n, kind)| + One(Holds(t.tasks[i], n, kind))
                                     - One(Holds(s.tasks[i], n, kind))
  {
    SizesDiffer(Holders(s, n, kind), Holders(t, n, kind), i);
  }

  /** A ledger's counts follow the one task that moved. */
  lemma PutSlots(s: State, t: State, i: nat)
    requires Shape(s) && SlotsHeld(s) && Shape(t)
    requires i < |s.tasks| && |t.tasks| == |s.tasks| && |t.meters| == |s.meters|
    requires forall j, n, k :: 0 <= j < |s.tasks| && j != i ==> Holds(t.tasks[j], n, k) == Holds(s.tasks[j], n, k)
    requires forall n :: 0 <= n < |s.meters| ==> t.meters[n].Gated() == s.meters[n].Gated()
    requires forall n, k :: 0 <= n < |s.meters| ==>
               t.meters[n].active.Get(k) == s.meters[n].active.Get(k)
                 + if s.meters[n].Gated() then One(Holds(t.tasks[i], n, k)) - One(Holds(s.tasks[i], n, k)) else 0
    ensures SlotsHeld(t)
  {
    forall n, k | 0 <= n < |t.meters|
      ensures t.meters[n].active.Get(k) == if t.meters[n].Gated() then |Holders(t, n, k)| else 0
    {
      HoldersOne(s, t, i, n, k);
    }
  }

  /** A gate is on a path only once. */
  lemma PassedHolds(s: State, i: nat, level: nat, n: nat)
    requires Shape(s) && i < |s.tasks| && !s.tasks[i].reflection
    requires level < |s.tasks[i].path|
    ensures s.tasks[i].path[level] !in s.tasks[i].path[..level]
    ensures n in s.tasks[i].path[..level + 1] <==> n in s.tasks[i].path[..level] || n == s.tasks[i].path[level]
  {
    var path := s.tasks[i].path;
    assert path[..level + 1] == path[..level] + [path[level]];
    forall j | 0 <= j < level
      ensures path[j] != path[level]
    {
      assert Depth(s.parents, path[j]) == j && Depth(s.parents, path[level]) == level;
    }
  }

  /** Running, or a reflection, holds no slot of a gate. */
  lemma AskQuietSlots(s: State, i: nat, reserve: real, raises: bool)
    requires Shape(s) && SlotsHeld(s) && i < |s.tasks| && s.tasks[i].status.Asking?
    requires s.tasks[i].level == |s.tasks[i].path| || s.tasks[i].reflection
    requires Shape(Ask(s, i, reserve, raises))
    ensures SlotsHeld(Ask(s, i, reserve, raises))
  {
    PutSlots(s, Ask(s, i, reserve, raises), i);
  }

  /** A rollout passes one more gate, which counts it if it is one. */
  lemma PassSlots(s: State, u: State, i: nat)
    requires Shape(s) && SlotsHeld(s) && Shape(u) && i < |s.tasks|
    requires s.tasks[i].level < |s.tasks[i].path| && !s.tasks[i].reflection
    requires exists r :: u.tasks == s.tasks[i := Passed(s.tasks[i], r)]
    requires var n := s.tasks[i].path[s.tasks[i].level];
      && n < |s.meters| == |u.meters|
      && u.meters == s.meters[n := u.meters[n]]
      && u.meters[n].Gated() == s.meters[n].Gated()
      && forall k :: u.meters[n].active.Get(k) ==
           s.meters[n].active.Get(k) + One(s.meters[n].Gated() && k == s.tasks[i].kind)
    ensures SlotsHeld(u)
  {
    var t := s.tasks[i];
    forall n
      ensures n in t.path[..t.level + 1] <==> n in t.path[..t.level] || n == t.path[t.level]
      ensures t.path[t.level] !in t.path[..t.level]
    {
      PassedHolds(s, i, t.level, n);
    }
    PutSlots(s, u, i);
  }

  /** No task and no ledger changes what is held. */
  lemma StandSlots(s: State, u: State)
    requires Shape(s) && SlotsHeld(s) && Shape(u) && |u.tasks| == |s.tasks| && |u.meters| == |s.meters|
    requires forall j :: 0 <= j < |s.tasks| ==> SameHolds(s.tasks[j], u.tasks[j])
    requires forall n :: 0 <= n < |s.meters| ==>
               u.meters[n].active == s.meters[n].active && u.meters[n].Gated() == s.meters[n].Gated()
    ensures SlotsHeld(u)
  {
    forall n, k | 0 <= n < |u.meters|
      ensures u.meters[n].active.Get(k) == if u.meters[n].Gated() then |Holders(u, n, k)| else 0
    {
      assert forall j :: 0 <= j < |s.tasks| ==> SameHolds(s.tasks[j], u.tasks[j]);
      assert Holders(u, n, k) == Holders(s, n, k);
    }
  }

  predicate SameHolds(t: Task, u: Task) {
    u.reflection == t.reflection && u.kind == t.kind && u.path == t.path && u.level == t.level
  }

  lemma AskGateSlots(s: State, i: nat, reserve: real, raises: bool)
    requires Shape(s) && SlotsHeld(s) && i < |s.tasks| && s.tasks[i].status.Asking?
    requires s.tasks[i].level < |s.tasks[i].path| && !s.tasks[i].reflection
    requires Shape(Ask(s, i, reserve, raises))
    ensures SlotsHeld(Ask(s, i, reserve, raises))
  {
    var t, u := s.tasks[i], Ask(s, i, reserve, raises);
    var n := t.path[t.level];
    var m := s.meters[n];
    if !m.Gated() {
      assert u.tasks == s.tasks[i := Passed(t, 0.0)];
      PassSlots(s, u, i);
    } else {
      var (m', answer) := TryAdmit(m, reserve, t.kind);
      if !raises && answer.Admits? {
        assert u.tasks == s.tasks[i := Passed(t, answer.reservation)];
        PassSlots(s, u, i);
      } else {
        StandSlots(s, u);
      }
    }
  }

  lemma AskSlots(s: State, i: nat, reserve: real, raises: bool)
    requires Shape(s) && SlotsHeld(s) && i < |s.tasks| && s.tasks[i].status.Asking?
    ensures Shape(Ask(s, i, reserve, raises)) && SlotsHeld(Ask(s, i, reserve, raises))
  {
    AskShape(s, i, reserve, raises);
    if s.tasks[i].level == |s.tasks[i].path| || s.tasks[i].reflection {
      AskQuietSlots(s, i, reserve, raises);
    } else {
      AskGateSlots(s, i, reserve, raises);
    }
  }

  /** A rollout gives up the innermost slot it holds. */
  lemma LeaveSlots(s: State, u: State, i: nat)
    requires Shape(s) && SlotsHeld(s) && Shape(u) && i < |s.tasks| == |u.tasks|
    requires 0 < s.tasks[i].level && !s.tasks[i].reflection
    requires u.tasks == s.tasks[i := u.tasks[i]] && !u.tasks[i].reflection && u.tasks[i].path == s.tasks[i].path
    requires u.tasks[i].kind == s.tasks[i].kind && u.tasks[i].level == s.tasks[i].level - 1
    requires var n := s.tasks[i].path[s.tasks[i].level - 1];
      && n < |s.meters| == |u.meters|
      && u.meters == s.meters[n := u.meters[n]]
      && u.meters[n].Gated() == s.meters[n].Gated()
      && forall k :: u.meters[n].active.Get(k) ==
           s.meters[n].active.Get(k) - One(s.meters[n].Gated() && k == s.tasks[i].kind)
    ensures SlotsHeld(u)
  {
    var t := s.tasks[i];
    forall n
      ensures n in t.path[..t.level] <==> n in t.path[..t.level - 1] || n == t.path[t.level - 1]
      ensures t.path[t.level - 1] !in t.path[..t.level - 1]
    {
      PassedHolds(s, i, t.level - 1, n);
    }
    PutSlots(s, u, i);
  }

  lemma LetGoSlots(s: State, i: nat)
    requires Shape(s) && SlotsHeld(s) && i < |s.tasks| && s.tasks[i].status.Leaving?
    ensures Shape(LetGo(s, i)) && SlotsHeld(LetGo(s, i))
  {
    var t, u := s.tasks[i], LetGo(s, i);
    PutShape(s, u, i);
    if t.level == 0 {
      StandSlots(s, u);
    } else if t.reflection {
      PutSlots(s, u, i);
    } else {
      LeaveSlots(s, u, i);
    }
  }

  lemma OneMoreSlots(s: State, u: State, t: Task)
    requires Shape(s) && SlotsHeld(s) && Shape(u) && u == s.(tasks := s.tasks + [t]) && t.level == 0
    ensures SlotsHeld(u)
  {
    assert forall i :: 0 <= i < |u.tasks| ==> u.tasks[i] == if i < |s.tasks| then s.tasks[i] else t;
    forall n, k ensures Holders(u, n, k) == Holders(s, n, k) {
      assert !Holds(t, n, k) by { assert t.path[..0] == []; }
    }
  }

  lemma SpawnSlots(s: State, e: Event)
    requires Shape(s) && SlotsHeld(s) && e.Spawn? && Shape(Step(s, e))
    ensures SlotsHeld(Step(s, e))
  {
    if e.leaf < |s.meters| {
      AncestryInRange(s.parents, e.leaf);
      OneMoreSlots(s, Step(s, e), Step(s, e).tasks[|s.tasks|]);
    }
  }

  /** Neither asking nor leaving, a task keeps what it holds. */
  lemma MoveSlots(s: State, e: Event)
    requires Shape(s) && SlotsHeld(s) && e.Move? && e.task < |s.tasks| && Shape(Step(s, e))
    requires !s.tasks[e.task].status.Asking? && !s.tasks[e.task].status.Leaving?
    ensures SlotsHeld(Step(s, e))
  {
    StandSlots(s, Step(s, e));
  }

  lemma StepSlots(s: State, e: Event)
    requires Shape(s) && SlotsHeld(s)
    ensures Shape(Step(s, e)) && SlotsHeld(Step(s, e))
  {
    StepShape(s, e);
    match e
    case Spawn(_, _, _) => SpawnSlots(s, e);
    case Ledgers(_) => StandSlots(s, Step(s, e));
    case Move(i, reserve, raises) =>
      if i < |s.tasks| {
        if s.tasks[i].status.Asking? {
          AskSlots(s, i, reserve, raises);
        } else if s.tasks[i].status.Leaving? {
          LetGoSlots(s, i);
        } else {
          MoveSlots(s, e);
        }
      }
  }

  // ----- the barrier and the sleepers -----

  lemma HolderIsCounted(s: State, i: nat, n: nat)
    requires Shape(s) && SlotsHeld(s) && i < |s.tasks| && n < |s.meters| && s.meters[n].Gated()
    requires Holds(s.tasks[i], n, s.tasks[i].kind)
    ensures s.meters[n].active.Get(s.tasks[i].kind) >= 1
  {
    assert i in Holders(s, n, s.tasks[i].kind);
  }

  lemma CountsAreNatural(s: State, n: nat)
    requires Shape(s) && SlotsHeld(s) && n < |s.meters|
    ensures s.meters[n].active.training >= 0 && s.meters[n].active.validation >= 0
  {
    assert s.meters[n].active.Get(Training) >= 0;
    assert s.meters[n].active.Get(Validation) >= 0;
  }

  lemma AskBarrier(s: State, i: nat, reserve: real, raises: bool)
    requires Orderly(s) && i < |s.tasks| && s.tasks[i].status.Asking?
    ensures Shape(Ask(s, i, reserve, raises)) && BarrierHeld(Ask(s, i, reserve, raises))
  {
    AskShape(s, i, reserve, raises);
    var u := Ask(s, i, reserve, raises);
    forall n | 0 <= n < |u.meters| && u.meters[n].reflecting
      ensures u.meters[n].active == PerKind(0, 0) && exists j :: 0 <= j < |u.tasks| && Inside(u.tasks[j], n)
    {
      if s.meters[n].reflecting {
        var j :| 0 <= j < |s.tasks| && Inside(s.tasks[j], n);
        assert Inside(u.tasks[j], n);
      } else {
        assert Inside(u.tasks[i], n);
      }
    }
  }

  /** A rollout that still holds a slot of `n` keeps a reflection out. */
  lemma LeavingKeepsOut(s: State, i: nat, n: nat)
    requires Orderly(s) && i < |s.tasks| && n < |s.meters| && s.meters[n].Gated()
    requires 0 < s.tasks[i].level && !s.tasks[i].reflection
    requires s.tasks[i].level <= |s.tasks[i].path| && s.tasks[i].path[s.tasks[i].level - 1] == n
    ensures !s.meters[n].reflecting
  {
    var t := s.tasks[i];
    assert t.path[..t.level][t.level - 1] == n;
    HolderIsCounted(s, i, n);
  }

  lemma LetGoBarrier(s: State, i: nat)
    requires Orderly(s) && i < |s.tasks| && s.tasks[i].status.Leaving?
    ensures Shape(LetGo(s, i)) && BarrierHeld(LetGo(s, i))
  {
    PutShape(s, LetGo(s, i), i);
    var u := LetGo(s, i);
    forall n | 0 <= n < |u.meters| && u.meters[n].reflecting
      ensures u.meters[n].active == PerKind(0, 0) && exists j :: 0 <= j < |u.tasks| && Inside(u.tasks[j], n)
    {
      LetGoBarrierAt(s, i, n);
    }
  }

  lemma LetGoBarrierAt(s: State, i: nat, n: nat)
    requires Orderly(s) && i < |s.tasks| && s.tasks[i].status.Leaving?
    requires n < |s.meters| && LetGo(s, i).meters[n].reflecting
    ensures var u := LetGo(s, i);
      u.meters[n].active == PerKind(0, 0) && exists j :: 0 <= j < |u.tasks| && Inside(u.tasks[j], n)
  {
    var t, u := s.tasks[i], LetGo(s, i);
    assert s.meters[n].reflecting;
    if t.level > 0 && !t.reflection && t.path[t.level - 1] == n && s.meters[n].Gated() {
      LeavingKeepsOut(s, i, n);
      assert false;
    }
    assert u.meters[n] == s.meters[n];
    var j :| 0 <= j < |s.tasks| && Inside(s.tasks[j], n);
    assert Inside(u.tasks[j], n);
  }

  lemma AskWatched(s: State, i: nat, reserve: real, raises: bool)
    requires Good(s) && i < |s.tasks| && s.tasks[i].status.Asking?
    ensures Shape(Ask(s, i, reserve, raises)) && SleepersWatched(Ask(s, i, reserve, raises))
  {
    AskShape(s, i, reserve, raises);
    var u := Ask(s, i, reserve, raises);
    forall j, n | 0 <= j < |u.tasks| && 0 <= n < |u.meters| && SleepsAt(u.tasks[j], n)
      ensures Busy(u.meters[n]) || exists k :: 0 <= k < |u.tasks| && WillNotify(u.tasks[k], n)
    {
      CountsAreNatural(s, n);
      if j != i {
        AskWatchesOthers(s, i, reserve, raises, j, n);
      }
    }
  }

  lemma AskWatchesOthers(s: State, i: nat, reserve: real, raises: bool, j: nat, n: nat)
    requires Good(s) && i < |s.tasks| && s.tasks[i].status.Asking? && j < |s.tasks| && j != i && n < |s.meters|
    requires s.meters[n].active.training >= 0 && s.meters[n].active.validation >= 0
    requires SleepsAt(Ask(s, i, reserve, raises).tasks[j], n)
    ensures var u := Ask(s, i, reserve, raises);
      Busy(u.meters[n]) || exists k :: 0 <= k < |u.tasks| && WillNotify(u.tasks[k], n)
  {
    var u := Ask(s, i, reserve, raises);
    assert SleepsAt(s.tasks[j], n);
    if !Busy(s.meters[n]) {
      var k :| 0 <= k < |s.tasks| && WillNotify(s.tasks[k], n);
      assert WillNotify(u.tasks[k], n);
    } else {
      assert Busy(u.meters[n]);
    }
  }

  lemma LetGoWatched(s: State, i: nat)
    requires Good(s) && i < |s.tasks| && s.tasks[i].status.Leaving?
    ensures Shape(LetGo(s, i)) && SleepersWatched(LetGo(s, i))
  {
    PutShape(s, LetGo(s, i), i);
    var u := LetGo(s, i);
    forall j, n | 0 <= j < |u.tasks| && 0 <= n < |u.meters| && SleepsAt(u.tasks[j], n)
      ensures Busy(u.meters[n]) || exists k :: 0 <= k < |u.tasks| && WillNotify(u.tasks[k], n)
    {
      assert SleepsAt(s.tasks[j], n);
      if u.meters[n] != s.meters[n] {
        assert WillNotify(u.tasks[i], n);
      } else if !Busy(s.meters[n]) {
        var k :| 0 <= k < |s.tasks| && WillNotify(s.tasks[k], n);
        assert WillNotify(u.tasks[k], n);
      }
    }
  }

  /** Neither asking nor leaving, no event touches a barrier. */
  lemma QuietBarrier(s: State, e: Event)
    requires Orderly(s)
    requires e.Move? && e.task < |s.tasks| ==>
               !s.tasks[e.task].status.Asking? && !s.tasks[e.task].status.Leaving?
    ensures Shape(Step(s, e)) && BarrierHeld(Step(s, e))
  {
    StepShape(s, e);
    var u := Step(s, e);
    forall n | 0 <= n < |u.meters| && u.meters[n].reflecting
      ensures u.meters[n].active == PerKind(0, 0) && exists j :: 0 <= j < |u.tasks| && Inside(u.tasks[j], n)
    {
      assert s.meters[n].reflecting;
      var j :| 0 <= j < |s.tasks| && Inside(s.tasks[j], n);
      assert Inside(u.tasks[j], n);
    }
  }

  lemma NotifyWatched(s: State, i: nat, reserve: real)
    requires Good(s) && i < |s.tasks| && s.tasks[i].status.Notifying?
    ensures Shape(Step(s, Move(i, reserve, false))) && SleepersWatched(Step(s, Move(i, reserve, false)))
  {
    StepShape(s, Move(i, reserve, false));
    var u := Step(s, Move(i, reserve, false));
    var at := s.tasks[i].path[s.tasks[i].level];
    forall j, n | 0 <= j < |u.tasks| && 0 <= n < |u.meters| && SleepsAt(u.tasks[j], n)
      ensures Busy(u.meters[n]) || exists k :: 0 <= k < |u.tasks| && WillNotify(u.tasks[k], n)
    {
      assert SleepsAt(s.tasks[j], n) && n != at;
      if !Busy(s.meters[n]) {
        var k :| 0 <= k < |s.tasks| && WillNotify(s.tasks[k], n);
        assert WillNotify(u.tasks[k], n);
      }
    }
  }

  /** Starting, settling elsewhere, giving up a wait and a change of ledgers keep the rest. */
  lemma QuietWatched(s: State, e: Event)
    requires Good(s)
    requires e.Move? && e.task < |s.tasks| ==>
               var st := s.tasks[e.task].status; st.Running? || st.Sleeping? || st.Done?
    ensures Shape(Step(s, e)) && SleepersWatched(Step(s, e))
  {
    StepShape(s, e);
    var u := Step(s, e);
    forall j, n | 0 <= j < |u.tasks| && 0 <= n < |u.meters| && SleepsAt(u.tasks[j], n)
      ensures Busy(u.meters[n]) || exists k :: 0 <= k < |u.tasks| && WillNotify(u.tasks[k], n)
    {
      assert j < |s.tasks| && SleepsAt(s.tasks[j], n);
      if !Busy(s.meters[n]) {
        var k :| 0 <= k < |s.tasks| && WillNotify(s.tasks[k], n);
        assert WillNotify(u.tasks[k], n);
      }
    }
  }

  lemma StepOrderly(s: State, e: Event)
    requires Orderly(s)
    ensures Orderly(Step(s, e))
  {
    StepSlots(s, e);
    if e.Move? && e.task < |s.tasks| && s.tasks[e.task].status.Asking? {
      AskBarrier(s, e.task, e.reserve, e.raises);
    } else if e.Move? && e.task < |s.tasks| && s.tasks[e.task].status.Leaving? {
      LetGoBarrier(s, e.task);
    } else {
      QuietBarrier(s, e);
    }
  }

  lemma StepGood(s: State, e: Event)
    requires Good(s) && !Loses(s, e)
    ensures Good(Step(s, e))
  {
    StepOrderly(s, e);
    if e.Move? && e.task < |s.tasks| && s.tasks[e.task].status.Asking? {
      AskWatched(s, e.task, e.reserve, e.raises);
    } else if e.Move? && e.task < |s.tasks| && s.tasks[e.task].status.Leaving? {
      LetGoWatched(s, e.task);
    } else if e.Move? && e.task < |s.tasks| && s.tasks[e.task].status.Notifying? {
      NotifyWatched(s, e.task, e.reserve);
    } else {
      QuietWatched(s, e);
    }
  }

  function Run(s: State, events: seq<Event>): (r: State)
    requires Shape(s)
    ensures Shape(r)
    decreases |events|
  {
    if events == [] then s
    else
      assert Shape(Step(s, events[0])) by { StepShape(s, events[0]); }
      Run(Step(s, events[0]), events[1..])
  }

  /** No event of the run cancels a notification on its way. */
  predicate Delivered(s: State, events: seq<Event>)
    requires Shape(s)
    decreases |events|
  {
    events == [] ||
    (!Loses(s, events[0]) && assert Shape(Step(s, events[0])) by { StepShape(s, events[0]); }
                             Delivered(Step(s, events[0]), events[1..]))
  }

  lemma {:induction false} RunOrderly(s: State, events: seq<Event>)
    requires Orderly(s)
    ensures Orderly(Run(s, events))
    decreases |events|
  {
    if events != [] {
      StepOrderly(s, events[0]);
      RunOrderly(Step(s, events[0]), events[1..]);
    }
  }

  lemma {:induction false} RunGood(s: State, events: seq<Event>)
    requires Good(s) && Delivered(s, events)
    ensures Good(Run(s, events))
    decreases |events|
  {
    if events != [] {
      StepGood(s, events[0]);
      RunGood(Step(s, events[0]), events[1..]);
    }
  }

  // ----- deadlock freedom -----

  /** Every task waits, runs or has finished: none is between two awaits. */
  predicate Settled(s: State) {
    forall i :: 0 <= i < |s.tasks| ==> s.tasks[i].status.Sleeping? || s.tasks[i].status.Running? || s.tasks[i].status.Done?
  }

  /** Something runs: a rollout admitted at every level of its chain, or a reflection. */
  ghost predicate SomethingRuns(s: State) {
    exists i :: 0 <= i < |s.tasks| && s.tasks[i].status.Running?
                && s.tasks[i].level == |s.tasks[i].path|
  }

  lemma {:induction false} DepthBelow(parents: seq<Option<nat>>, n: nat)
    requires n < |parents| && ValidParents(parents)
    ensures Depth(parents, n) <= n
  {
    if parents[n].Some? {
      DepthBelow(parents, parents[n].value);
    }
  }

  /** Follow a busy ledger to whoever holds it, and on to where that one waits, always deeper. */
  lemma {:induction false} BusyLeadsToRunner(s: State, n: nat)
    requires Good(s) && Settled(s) && n < |s.meters| && Busy(s.meters[n])
    ensures SomethingRuns(s)
    decreases |s.meters| - Depth(s.parents, n)
  {
    DepthBelow(s.parents, n);
    if s.meters[n].reflecting {
      var i :| 0 <= i < |s.tasks| && Inside(s.tasks[i], n);
      assert TaskOk(s.tasks[i], |s.meters|);
      assert s.tasks[i].status.Running?;
    } else {
      var k := if s.meters[n].active.training != 0 then Training else Validation;
      assert s.meters[n].active.Get(k) != 0;
      assert |Holders(s, n, k)| != 0;
      var i :| i in Holders(s, n, k);
      var t := s.tasks[i];
      assert TaskOk(t, |s.meters|);
      var j :| 0 <= j < t.level && t.path[j] == n;
      if t.status.Sleeping? {
        var deeper := t.path[t.level];
        assert SleepsAt(t, deeper);
        assert Depth(s.parents, n) == j && Depth(s.parents, deeper) == t.level;
        assert Busy(s.meters[deeper]);
        BusyLeadsToRunner(s, deeper);
      }
    }
  }

  /** Deadlock freedom.  In every state reached from idle ledgers, by any interleaving and any
      cancellations but those of a notification, if some task sleeps then some task can move:
      one between awaits, or one that runs.  When no task is between awaits, a rollout admitted
      at every level of its chain or a reflection is running. */
  lemma NoDeadlock(s: State, events: seq<Event>, waiting: nat)
    requires Initial(s) && Delivered(s, events)
    requires waiting < |Run(s, events).tasks| && Run(s, events).tasks[waiting].status.Sleeping?
    ensures var t := Run(s, events);
      && (Settled(t) ==> SomethingRuns(t))
      && (exists i :: 0 <= i < |t.tasks| && !t.tasks[i].status.Sleeping? && !t.tasks[i].status.Done?)
  {
    InitialIsGood(s);
    RunGood(s, events);
    var t := Run(s, events);
    assert TaskOk(t.tasks[waiting], |t.meters|);
    var n := t.tasks[waiting].path[t.tasks[waiting].level];
    assert SleepsAt(t.tasks[waiting], n);
    if Settled(t) {
      BusyLeadsToRunner(t, n);
    }
  }

  /** The barrier: while a ledger reflects, no rollout holds a slot of it. */
  lemma ReflectionsRunAlone(s: State, events: seq<Event>, n: nat, i: nat)
    requires Initial(s) && n < |Run(s, events).meters| && i < |Run(s, events).tasks|
    requires Run(s, events).meters[n].reflecting && Run(s, events).meters[n].Gated()
    ensures var t := Run(s, events);
      && t.meters[n].ActiveRollouts() == 0
      && (t.tasks[i].reflection || n !in t.tasks[i].path[..t.tasks[i].level])
  {
    InitialIsGood(s);
    RunOrderly(s, events);
    var t := Run(s, events);
    if !t.tasks[i].reflection && n in t.tasks[i].path[..t.tasks[i].level] {
      HolderIsCounted(t, i, n);
      assert false;
    }
  }

  // ----- which gate a reflection takes -----

  /** `a` is above `n`, at any distance. */
  predicate Above(parents: seq<Option<nat>>, a: nat, n: nat)
    requires n < |parents| && ValidParents(parents)
  {
    parents[n].Some? && (parents[n].value == a || Above(parents, a, parents[n].value))
  }

  /** The capped ledger above `leaf` that has no capped ledger above itself. */
  ghost predicate OutermostCapped(parents: seq<Option<nat>>, meters: seq<Meter>, root: nat, leaf: nat)
    requires leaf < |parents| == |meters| && ValidParents(parents)
  {
    && root < |parents| && Above(parents, root, leaf) && meters[root].cap.Some?
    && forall a :: 0 <= a < |parents| && Above(parents, a, root) ==> meters[a].cap.None?
  }

  lemma {:induction false} AncestryAbove(parents: seq<Option<nat>>, n: nat, a: nat)
    requires n < |parents| && ValidParents(parents)
    ensures a in Ancestry(parents, n) <==> a == n || Above(parents, a, n)
  {
    if parents[n].Some? {
      AncestryAbove(parents, parents[n].value, a);
    }
  }

  /** Each ledger of an ancestry has the ones before it above it. */
  lemma {:induction false} AncestryNests(parents: seq<Option<nat>>, n: nat, k: nat)
    requires n < |parents| && ValidParents(parents) && k < |Ancestry(parents, n)|
    ensures Ancestry(parents, n)[k] < |parents|
    ensures Ancestry(parents, Ancestry(parents, n)[k]) == Ancestry(parents, n)[..k + 1]
    ensures k == |Ancestry(parents, n)| - 1 <==> Ancestry(parents, n)[k] == n
  {
    AncestryInRange(parents, n);
    if parents[n].Some? {
      var up := Ancestry(parents, parents[n].value);
      AncestryInRange(parents, parents[n].value);
      assert Ancestry(parents, n)[..|up|] == up;
      if k < |up| {
        AncestryNests(parents, parents[n].value, k);
        assert Ancestry(parents, n)[..k + 1] == up[..k + 1];
      }
    }
  }

  /** The gate is the first capped ledger of the path but its last. */
  lemma {:induction false} BarrierIsFirst(path: seq<nat>, meters: seq<Meter>, k: nat)
    requires forall j :: 0 <= j < |path| ==> path[j] < |meters|
    requires k + 1 < |path| && meters[path[k]].cap.Some?
    requires forall h :: 0 <= h < k ==> meters[path[h]].cap.None?
    ensures Barrier(path, meters) == [path[k]]
  {
    if k > 0 {
      BarrierIsFirst(path[1..], meters, k - 1);
    }
  }

  lemma {:induction false} NoBarrier(path: seq<nat>, meters: seq<Meter>)
    requires forall j :: 0 <= j < |path| ==> path[j] < |meters|
    requires forall h :: 0 <= h < |path| - 1 ==> meters[path[h]].cap.None?
    ensures Barrier(path, meters) == []
  {
    if |path| > 1 {
      NoBarrier(path[1..], meters);
    }
  }

  /** A reflection's gate is the outermost capped ledger above its own; without one it has none. */
  lemma BarrierIsOutermost(parents: seq<Option<nat>>, meters: seq<Meter>, leaf: nat)
    requires leaf < |parents| == |meters| && ValidParents(parents)
    ensures forall j :: 0 <= j < |Ancestry(parents, leaf)| ==> Ancestry(parents, leaf)[j] < |meters|
    ensures forall root: nat :: OutermostCapped(parents, meters, root, leaf) ==> Barrier(Ancestry(parents, leaf), meters) == [root]
    ensures (forall a :: 0 <= a < |parents| && Above(parents, a, leaf) ==> meters[a].cap.None?) ==>
              Barrier(Ancestry(parents, leaf), meters) == []
  {
    var path := Ancestry(parents, leaf);
    AncestryInRange(parents, leaf);
    forall root: nat | OutermostCapped(parents, meters, root, leaf) ensures Barrier(path, meters) == [root] {
      OutermostIsFirst(parents, meters, root, leaf);
    }
    if forall a :: 0 <= a < |parents| && Above(parents, a, leaf) ==> meters[a].cap.None? {
      forall h | 0 <= h < |path| - 1 ensures meters[path[h]].cap.None? {
        AncestryNests(parents, leaf, h);
        AncestryAbove(parents, leaf, path[h]);
      }
      NoBarrier(path, meters);
    }
  }

  lemma OutermostIsFirst(parents: seq<Option<nat>>, meters: seq<Meter>, root: nat, leaf: nat)
    requires leaf < |parents| == |meters| && ValidParents(parents) && OutermostCapped(parents, meters, root, leaf)
    requires forall j :: 0 <= j < |Ancestry(parents, leaf)| ==> Ancestry(parents, leaf)[j] < |meters|
    ensures Barrier(Ancestry(parents, leaf), meters) == [root]
  {
    var path := Ancestry(parents, leaf);
    AncestryAbove(parents, leaf, root);
    var k :| 0 <= k < |path| && path[k] == root;
    NotAboveItself(parents, root, leaf);
    AncestryNests(parents, leaf, k);
    forall h | 0 <= h < k ensures meters[path[h]].cap.None? {
      assert path[h] == path[..k + 1][h];
      NotAboveItself(parents, path[h], root);
      AncestryAbove(parents, root, path[h]);
      AncestryNests(parents, root, h);
    }
    BarrierIsFirst(path, meters, k);
  }

  lemma {:induction false} NotAboveItself(parents: seq<Option<nat>>, a: nat, n: nat)
    requires n < |parents| && ValidParents(parents)
    ensures Above(parents, a, n) ==> a < n
  {
    if parents[n].Some? {
      NotAboveItself(parents, a, parents[n].value);
    }
  }

  // ----- a running reflection is alone below its gate -----

  predicate SameCaps(a: seq<Meter>, b: seq<Meter>) {
    |a| == |b| && forall n :: 0 <= n < |a| ==> a[n].cap == b[n].cap
  }

  lemma {:induction false} SameBarrier(path: seq<nat>, a: seq<Meter>, b: seq<Meter>)
    requires SameCaps(a, b) && forall j :: 0 <= j < |path| ==> path[j] < |a|
    ensures Barrier(path, a) == Barrier(path, b)
  {
    if |path| > 1 {
      SameBarrier(path[1..], a, b);
    }
  }

  /** A task's gates are those of its ledger. */
  predicate OwnGates(t: Task, parents: seq<Option<nat>>, meters: seq<Meter>)
    requires ValidParents(parents) && |parents| == |meters|
  {
    t.leaf < |parents| &&
    (AncestryInRange(parents, t.leaf);
     t.path == if t.reflection then Barrier(Ancestry(parents, t.leaf), meters) else Ancestry(parents, t.leaf))
  }

  /** Whoever is inside a barrier keeps it up, alone. */
  ghost predicate BarriersUp(s: State)
    requires Shape(s)
  {
    && (forall i :: 0 <= i < |s.tasks| ==> OwnGates(s.tasks[i], s.parents, s.meters))
    && (forall i, n :: 0 <= i < |s.tasks| && 0 <= n < |s.meters| && Inside(s.tasks[i], n) ==> s.meters[n].reflecting)
    && (forall i, j, n :: 0 <= i < |s.tasks| && 0 <= j < |s.tasks| && Inside(s.tasks[i], n) && Inside(s.tasks[j], n) ==>
          i == j)
  }

  /** Caps, leaves and gates never change. */
  predicate KeepsGates(s: State, u: State) {
    && SameCaps(s.meters, u.meters) && u.parents == s.parents && |s.tasks| <= |u.tasks|
    && forall i :: 0 <= i < |s.tasks| ==>
         && u.tasks[i].leaf == s.tasks[i].leaf && u.tasks[i].path == s.tasks[i].path
         && u.tasks[i].reflection == s.tasks[i].reflection
  }

  lemma AdmissionKeepsCap(m: Meter, reserve: real, kind: Kind)
    requires m.Gated()
    ensures var (after, answer) := TryAdmit(m, reserve, kind);
      after.cap == m.cap && (answer.Admits? ==> Hold(after, kind, answer.reservation).cap == m.cap)
  {
  }

  lemma RolloutAskKeepsGates(s: State, i: nat, reserve: real, raises: bool)
    requires Shape(s) && i < |s.tasks| && s.tasks[i].status.Asking? && !s.tasks[i].reflection
    ensures KeepsGates(s, Ask(s, i, reserve, raises))
  {
    var t := s.tasks[i];
    if t.level < |t.path| && s.meters[t.path[t.level]].Gated() {
      AdmissionKeepsCap(s.meters[t.path[t.level]], reserve, t.kind);
    }
  }

  lemma AskKeepsGates(s: State, i: nat, reserve: real, raises: bool)
    requires Shape(s) && i < |s.tasks| && s.tasks[i].status.Asking?
    ensures KeepsGates(s, Ask(s, i, reserve, raises))
  {
    if !s.tasks[i].reflection {
      RolloutAskKeepsGates(s, i, reserve, raises);
    }
  }

  lemma LetGoKeepsGates(s: State, i: nat)
    requires Shape(s) && i < |s.tasks| && s.tasks[i].status.Leaving?
    ensures KeepsGates(s, LetGo(s, i))
  {
  }

  lemma QuietKeepsGates(s: State, e: Event)
    requires Shape(s) && !e.Spawn?
    requires e.Move? && e.task < |s.tasks| ==>
               !s.tasks[e.task].status.Asking? && !s.tasks[e.task].status.Leaving?
    ensures KeepsGates(s, Step(s, e))
  {
  }

  lemma GatesStay(s: State, u: State, i: nat)
    requires Shape(s) && Shape(u) && KeepsGates(s, u) && i < |s.tasks| && OwnGates(s.tasks[i], s.parents, s.meters)
    ensures OwnGates(u.tasks[i], u.parents, u.meters)
  {
    AncestryInRange(s.parents, s.tasks[i].leaf);
    SameBarrier(Ancestry(s.parents, s.tasks[i].leaf), s.meters, u.meters);
  }

  /** A task that takes its barrier finds it down. */
  lemma AskUp(s: State, i: nat, reserve: real, raises: bool)
    requires Shape(s) && BarriersUp(s) && i < |s.tasks| && s.tasks[i].status.Asking?
    ensures Shape(Ask(s, i, reserve, raises)) && BarriersUp(Ask(s, i, reserve, raises))
  {
    AskShape(s, i, reserve, raises);
    AskOwnGates(s, i, reserve, raises);
    AskAllReflecting(s, i, reserve, raises);
    AskAllAlone(s, i, reserve, raises);
  }

  lemma AskOwnGates(s: State, i: nat, reserve: real, raises: bool)
    requires Shape(s) && BarriersUp(s) && i < |s.tasks| && s.tasks[i].status.Asking? && Shape(Ask(s, i, reserve, raises))
    ensures var u := Ask(s, i, reserve, raises);
      forall j :: 0 <= j < |u.tasks| ==> OwnGates(u.tasks[j], u.parents, u.meters)
  {
    AskKeepsGates(s, i, reserve, raises);
    var u := Ask(s, i, reserve, raises);
    forall j | 0 <= j < |u.tasks| ensures OwnGates(u.tasks[j], u.parents, u.meters) {
      GatesStay(s, u, j);
    }
  }

  lemma AskAllReflecting(s: State, i: nat, reserve: real, raises: bool)
    requires Shape(s) && BarriersUp(s) && i < |s.tasks| && s.tasks[i].status.Asking? && Shape(Ask(s, i, reserve, raises))
    ensures var u := Ask(s, i, reserve, raises);
      forall j, n :: 0 <= j < |u.tasks| && 0 <= n < |u.meters| && Inside(u.tasks[j], n) ==> u.meters[n].reflecting
  {
    AskKeepsGates(s, i, reserve, raises);
    var u := Ask(s, i, reserve, raises);
    forall j, n | 0 <= j < |u.tasks| && 0 <= n < |u.meters| && Inside(u.tasks[j], n) ensures u.meters[n].reflecting {
      AskReflecting(s, i, reserve, raises, j, n);
    }
  }

  lemma AskAllAlone(s: State, i: nat, reserve: real, raises: bool)
    requires Shape(s) && BarriersUp(s) && i < |s.tasks| && s.tasks[i].status.Asking? && Shape(Ask(s, i, reserve, raises))
    ensures var u := Ask(s, i, reserve, raises);
      forall j, k, n :: 0 <= j < |u.tasks| && 0 <= k < |u.tasks| && Inside(u.tasks[j], n) && Inside(u.tasks[k], n) ==> j == k
  {
    AskKeepsGates(s, i, reserve, raises);
    var u := Ask(s, i, reserve, raises);
    forall j, k, n | 0 <= j < |u.tasks| && 0 <= k < |u.tasks| && Inside(u.tasks[j], n) && Inside(u.tasks[k], n)
      ensures j == k
    {
      assert TaskOk(u.tasks[j], |u.meters|);
      assert n == u.tasks[j].path[0];
      AskAlone(s, i, reserve, raises, j, k, n);
    }
  }

  lemma AdmissionKeepsBarrier(m: Meter, reserve: real, kind: Kind)
    requires m.Gated()
    ensures var (after, answer) := TryAdmit(m, reserve, kind);
      after.reflecting == m.reflecting && (answer.Admits? ==> Hold(after, kind, answer.reservation).reflecting == m.reflecting)
  {
  }

  /** A rollout moves no barrier. */
  lemma RolloutAsks(s: State, i: nat, reserve: real, raises: bool, j: nat, n: nat)
    requires Shape(s) && i < |s.tasks| && s.tasks[i].status.Asking? && !s.tasks[i].reflection
    requires j < |s.tasks| && n < |s.meters|
    ensures var u := Ask(s, i, reserve, raises);
      u.meters[n].reflecting == s.meters[n].reflecting && Inside(u.tasks[j], n) == Inside(s.tasks[j], n)
  {
    var t := s.tasks[i];
    if t.level < |t.path| && s.meters[t.path[t.level]].Gated() {
      AdmissionKeepsBarrier(s.meters[t.path[t.level]], reserve, t.kind);
    }
  }

  /** A reflection that passes raises its barrier, which was down. */
  lemma ReflectionAsks(s: State, i: nat, reserve: real, raises: bool, j: nat, n: nat)
    requires Shape(s) && i < |s.tasks| && s.tasks[i].status.Asking? && s.tasks[i].reflection
    requires j < |s.tasks| && n < |s.meters|
    ensures var u := Ask(s, i, reserve, raises);
      && (j != i ==> Inside(u.tasks[j], n) == Inside(s.tasks[j], n))
      && (Inside(u.tasks[i], n) && !Inside(s.tasks[i], n) ==> u.meters[n].reflecting && !s.meters[n].reflecting)
      && (s.meters[n].reflecting ==> u.meters[n].reflecting)
  {
  }

  lemma AskReflecting(s: State, i: nat, reserve: real, raises: bool, j: nat, n: nat)
    requires Shape(s) && BarriersUp(s) && i < |s.tasks| && s.tasks[i].status.Asking? && j < |s.tasks| && n < |s.meters|
    requires Inside(Ask(s, i, reserve, raises).tasks[j], n)
    ensures Ask(s, i, reserve, raises).meters[n].reflecting
    ensures j != i || Inside(s.tasks[i], n) ==> Inside(s.tasks[j], n)
    ensures j == i && !Inside(s.tasks[i], n) ==> !s.meters[n].reflecting
  {
    if s.tasks[i].reflection {
      ReflectionAsks(s, i, reserve, raises, j, n);
    } else {
      RolloutAsks(s, i, reserve, raises, j, n);
    }
  }

  lemma AskAlone(s: State, i: nat, reserve: real, raises: bool, j: nat, k: nat, n: nat)
    requires Shape(s) && BarriersUp(s) && i < |s.tasks| && s.tasks[i].status.Asking? && n < |s.meters|
    requires j < |s.tasks| && k < |s.tasks|
    requires Inside(Ask(s, i, reserve, raises).tasks[j], n) && Inside(Ask(s, i, reserve, raises).tasks[k], n)
    ensures j == k
  {
    AskReflecting(s, i, reserve, raises, j, n);
    AskReflecting(s, i, reserve, raises, k, n);
  }

  lemma LetGoUp(s: State, i: nat)
    requires Shape(s) && BarriersUp(s) && i < |s.tasks| && s.tasks[i].status.Leaving?
    ensures Shape(LetGo(s, i)) && BarriersUp(LetGo(s, i))
  {
    PutShape(s, LetGo(s, i), i);
    LetGoKeepsGates(s, i);
    var u := LetGo(s, i);
    forall j | 0 <= j < |u.tasks| ensures OwnGates(u.tasks[j], u.parents, u.meters) {
      GatesStay(s, u, j);
    }
    forall j, n | 0 <= j < |u.tasks| && Inside(u.tasks[j], n) ensures j != i && Inside(s.tasks[j], n) {
      LetGoOutside(s, i, j, n);
    }
    forall j, n | 0 <= j < |u.tasks| && 0 <= n < |u.meters| && Inside(u.tasks[j], n) ensures u.meters[n].reflecting {
      LetGoReflecting(s, i, j, n);
    }
  }

  lemma LetGoOutside(s: State, i: nat, j: nat, n: nat)
    requires Shape(s) && i < |s.tasks| && s.tasks[i].status.Leaving? && j < |s.tasks|
    requires Inside(LetGo(s, i).tasks[j], n)
    ensures j != i && Inside(s.tasks[j], n)
  {
    assert TaskOk(s.tasks[i], |s.meters|);
  }

  lemma LetGoReflecting(s: State, i: nat, j: nat, n: nat)
    requires Shape(s) && BarriersUp(s) && i < |s.tasks| && s.tasks[i].status.Leaving?
    requires j < |s.tasks| && n < |s.meters| && j != i && Inside(s.tasks[j], n)
    ensures LetGo(s, i).meters[n].reflecting
  {
    var t := s.tasks[i];
    assert TaskOk(t, |s.meters|);
    assert t.reflection && t.level > 0 ==> Inside(t, t.path[t.level - 1]);
  }

  lemma CarryUp(s: State, u: State)
    requires Shape(s) && BarriersUp(s) && Shape(u) && KeepsGates(s, u) && |u.tasks| == |s.tasks|
    requires forall j, n :: 0 <= j < |u.tasks| ==> Inside(u.tasks[j], n) == Inside(s.tasks[j], n)
    requires forall n :: 0 <= n < |s.meters| && s.meters[n].reflecting ==> u.meters[n].reflecting
    ensures BarriersUp(u)
  {
    forall j | 0 <= j < |u.tasks| ensures OwnGates(u.tasks[j], u.parents, u.meters) {
      GatesStay(s, u, j);
    }
  }

  lemma QuietInside(s: State, e: Event)
    requires Shape(s) && !e.Spawn?
    requires e.Move? && e.task < |s.tasks| ==>
               !s.tasks[e.task].status.Asking? && !s.tasks[e.task].status.Leaving?
    ensures var u := Step(s, e);
      && |u.tasks| == |s.tasks| && |u.meters| == |s.meters|
      && (forall j, n :: 0 <= j < |u.tasks| ==> Inside(u.tasks[j], n) == Inside(s.tasks[j], n))
      && (forall n :: 0 <= n < |s.meters| && s.meters[n].reflecting ==> u.meters[n].reflecting)
  {
  }

  lemma QuietUp(s: State, e: Event)
    requires Shape(s) && BarriersUp(s)
    requires e.Move? && e.task < |s.tasks| ==>
               !s.tasks[e.task].status.Asking? && !s.tasks[e.task].status.Leaving?
    requires !e.Spawn?
    ensures Shape(Step(s, e)) && BarriersUp(Step(s, e))
  {
    StepShape(s, e);
    QuietKeepsGates(s, e);
    QuietInside(s, e);
    CarryUp(s, Step(s, e));
  }

  lemma OneMoreUp(s: State, u: State, t: Task)
    requires Shape(s) && BarriersUp(s) && Shape(u) && u == s.(tasks := s.tasks + [t])
    requires t.level == 0 && OwnGates(t, s.parents, s.meters)
    ensures BarriersUp(u)
  {
    assert forall j :: 0 <= j < |u.tasks| ==> u.tasks[j] == if j < |s.tasks| then s.tasks[j] else t;
    assert forall n :: !Inside(t, n);
  }

  lemma SpawnUp(s: State, e: Event)
    requires Shape(s) && BarriersUp(s) && e.Spawn?
    ensures Shape(Step(s, e)) && BarriersUp(Step(s, e))
  {
    StepShape(s, e);
    if e.leaf < |s.meters| {
      AncestryInRange(s.parents, e.leaf);
      OneMoreUp(s, Step(s, e), Step(s, e).tasks[|s.tasks|]);
    }
  }

  lemma {:induction false} RunUp(s: State, events: seq<Event>)
    requires Shape(s) && BarriersUp(s)
    ensures BarriersUp(Run(s, events))
    decreases |events|
  {
    if events != [] {
      var e := events[0];
      if e.Spawn? {
        SpawnUp(s, e);
      } else if e.Move? && e.task < |s.tasks| && s.tasks[e.task].status.Asking? {
        AskUp(s, e.task, e.reserve, e.raises);
      } else if e.Move? && e.task < |s.tasks| && s.tasks[e.task].status.Leaving? {
        LetGoUp(s, e.task);
      } else {
        QuietUp(s, e);
      }
      RunUp(Step(s, e), events[1..]);
    }
  }

  lemma RunsBeside(t: State, root: nat, j: nat)
    requires Orderly(t) && root < |t.meters| && t.meters[root].reflecting && t.meters[root].Gated()
    requires j < |t.tasks| && !t.tasks[j].reflection && t.tasks[j].status.Running?
    ensures root !in t.tasks[j].path
  {
    if root in t.tasks[j].path {
      assert TaskOk(t.tasks[j], |t.meters|);
      assert t.tasks[j].path[..t.tasks[j].level] == t.tasks[j].path;
      HolderIsCounted(t, j, root);
      assert false;
    }
  }

  lemma RunningAlone(t: State, i: nat, root: nat, j: nat)
    requires Orderly(t) && BarriersUp(t)
    requires i < |t.tasks| && t.tasks[i].reflection && t.tasks[i].status.Running?
    requires j < |t.tasks| && !t.tasks[j].reflection && t.tasks[j].status.Running?
    requires t.tasks[i].leaf < |t.parents| && OutermostCapped(t.parents, t.meters, root, t.tasks[i].leaf)
    ensures t.meters[root].reflecting && t.tasks[j].leaf < |t.parents|
    ensures t.meters[root].Gated() ==> t.tasks[j].leaf != root && !Above(t.parents, root, t.tasks[j].leaf)
  {
    assert OwnGates(t.tasks[i], t.parents, t.meters) && OwnGates(t.tasks[j], t.parents, t.meters);
    BarrierIsOutermost(t.parents, t.meters, t.tasks[i].leaf);
    assert TaskOk(t.tasks[i], |t.meters|);
    assert Inside(t.tasks[i], root);
    if t.meters[root].Gated() {
      AncestryAbove(t.parents, t.tasks[j].leaf, root);
      RunsBeside(t, root, j);
    }
  }

  /** While a reflection runs, the outermost capped ledger above its own reflects, and no rollout
      runs under that ledger or anywhere below it, if its admission is enforced at all.  Without a
      capped ledger above its own, a reflection passes no gate. */
  lemma NoRolloutBesideReflection(s: State, events: seq<Event>, i: nat, root: nat, j: nat)
    requires Initial(s)
    requires var t := Run(s, events);
      && i < |t.tasks| && t.tasks[i].reflection && t.tasks[i].status.Running?
      && j < |t.tasks| && !t.tasks[j].reflection && t.tasks[j].status.Running?
    ensures var t := Run(s, events);
      && t.tasks[i].leaf < |t.parents| == |t.meters| && t.tasks[j].leaf < |t.parents|
      && (OutermostCapped(t.parents, t.meters, root, t.tasks[i].leaf) ==>
            && t.meters[root].reflecting
            && (t.meters[root].Gated() ==> t.tasks[j].leaf != root && !Above(t.parents, root, t.tasks[j].leaf)))
      && ((forall a :: 0 <= a < |t.parents| && Above(t.parents, a, t.tasks[i].leaf) ==> t.meters[a].cap.None?) ==>
            t.tasks[i].path == [])
  {
    InitialIsGood(s);
    RunOrderly(s, events);
    RunUp(s, events);
    var t := Run(s, events);
    assert OwnGates(t.tasks[i], t.parents, t.meters) && OwnGates(t.tasks[j], t.parents, t.meters);
    BarrierIsOutermost(t.parents, t.meters, t.tasks[i].leaf);
    if OutermostCapped(t.parents, t.meters, root, t.tasks[i].leaf) {
      RunningAlone(t, i, root, j);
    }
  }

  // ----- a notification that is cancelled -----

  /** A capped ledger with a child, and two reflections of the child; the first holds the
      barrier or not. */
  function TwoReflections(root: Meter, level: nat, first: Status, second: Status): State
    requires level <= 1
  {
    State([None, Some(0)], [root.(reflecting := level == 1), root],
          [Task(true, Training, 1, [0], level, if level == 1 then [0.0] else [], first),
           Task(true, Training, 1, [0], 0, [], second)])
  }

  predicate IdleRoot(root: Meter) {
    root.cap.Some? && !root.reflecting && root.active == PerKind(0, 0)
  }

  lemma ReflectionsSpawn(root: Meter)
    requires IdleRoot(root)
    ensures var s := TwoReflections(root, 0, Asking, Asking).(tasks := []);
      Initial(s) && Run(s, [Spawn(true, Training, 1), Spawn(true, Training, 1)]) == TwoReflections(root, 0, Asking, Asking)
  {
    var s, e := TwoReflections(root, 0, Asking, Asking).(tasks := []), Spawn(true, Training, 1);
    assert Ancestry(s.parents, 0) == [0] && Ancestry(s.parents, 1) == [0, 1];
    assert Barrier([0, 1], s.meters) == [0];
    assert Step(s, e).tasks == [Task(true, Training, 1, [0], 0, [], Asking)];
    assert Step(Step(s, e), e).tasks == TwoReflections(root, 0, Asking, Asking).tasks;
    assert [e, e][1..] == [e];
  }

  lemma FirstPasses(root: Meter)
    ensures Passed(TwoReflections(root, 0, Asking, Asking).tasks[0], 0.0) == TwoReflections(root, 1, Running, Asking).tasks[0]
  {
    assert [] + [0.0] == [0.0];
  }

  lemma FirstReflects(root: Meter)
    requires IdleRoot(root)
    ensures Shape(TwoReflections(root, 0, Asking, Asking))
    ensures Step(TwoReflections(root, 0, Asking, Asking), Move(0, 0.0, false)) == TwoReflections(root, 1, Running, Asking)
  {
    var s, u := TwoReflections(root, 0, Asking, Asking), TwoReflections(root, 1, Running, Asking);
    FirstPasses(root);
    assert s.tasks[0 := u.tasks[0]] == u.tasks;
    assert s.meters[0 := root.(reflecting := true)] == u.meters;
  }

  lemma SecondWaits(root: Meter)
    requires IdleRoot(root)
    ensures Shape(TwoReflections(root, 1, Running, Asking))
    ensures Step(TwoReflections(root, 1, Running, Asking), Move(1, 0.0, false)) == TwoReflections(root, 1, Running, Sleeping)
  {
    var u := TwoReflections(root, 1, Running, Asking);
    assert Step(u, Move(1, 0.0, false)).tasks == TwoReflections(root, 1, Running, Sleeping).tasks;
  }

  lemma ReflectionsLeave(root: Meter)
    requires IdleRoot(root)
    ensures Shape(TwoReflections(root, 1, Running, Sleeping)) && Shape(TwoReflections(root, 0, Notifying, Sleeping))
    ensures Step(TwoReflections(root, 1, Running, Sleeping), Move(0, 0.0, false)) == TwoReflections(root, 1, Leaving, Sleeping)
    ensures Step(TwoReflections(root, 1, Leaving, Sleeping), Move(0, 0.0, false)) == TwoReflections(root, 0, Notifying, Sleeping)
    ensures Step(TwoReflections(root, 0, Notifying, Sleeping), Move(0, 0.0, true)) == TwoReflections(root, 0, Leaving, Sleeping)
    ensures Step(TwoReflections(root, 0, Leaving, Sleeping), Move(0, 0.0, false)) == TwoReflections(root, 0, Done, Sleeping)
  {
    var s := TwoReflections(root, 1, Leaving, Sleeping);
    assert Step(s, Move(0, 0.0, false)).tasks == TwoReflections(root, 0, Notifying, Sleeping).tasks;
    assert Step(s, Move(0, 0.0, false)).meters == TwoReflections(root, 0, Notifying, Sleeping).meters;
  }

  lemma RunOn(s: State, e: Event, events: seq<Event>)
    requires Shape(s)
    ensures Shape(Step(s, e)) && Run(s, [e] + events) == Run(Step(s, e), events)
  {
    StepShape(s, e);
    assert ([e] + events)[1..] == events;
  }

  lemma {:induction false} RunOnAfter(s: State, first: seq<Event>, events: seq<Event>)
    requires Shape(s)
    ensures Run(s, first + events) == Run(Run(s, first), events)
    decreases |first|
  {
    if first == [] {
      assert first + events == events;
    } else {
      assert (first + events)[1..] == first[1..] + events;
      StepShape(s, first[0]);
      RunOnAfter(Step(s, first[0]), first[1..], events);
    }
  }

  lemma SilentLeave(root: Meter) returns (events: seq<Event>)
    requires IdleRoot(root)
    ensures Shape(TwoReflections(root, 1, Running, Sleeping))
    ensures Run(TwoReflections(root, 1, Running, Sleeping), events) == TwoReflections(root, 0, Done, Sleeping)
  {
    ReflectionsLeave(root);
    var go := Move(0, 0.0, false);
    events := [go];
    RunOn(TwoReflections(root, 0, Leaving, Sleeping), go, []);
    RunOn(TwoReflections(root, 0, Notifying, Sleeping), Move(0, 0.0, true), events);
    events := [Move(0, 0.0, true)] + events;
    RunOn(TwoReflections(root, 1, Leaving, Sleeping), go, events);
    events := [go] + events;
    RunOn(TwoReflections(root, 1, Running, Sleeping), go, events);
    events := [go] + events;
  }

  lemma SecondSleeps(root: Meter) returns (events: seq<Event>)
    requires IdleRoot(root)
    ensures Shape(TwoReflections(root, 0, Asking, Asking))
    ensures Run(TwoReflections(root, 0, Asking, Asking), events) == TwoReflections(root, 0, Done, Sleeping)
  {
    FirstReflects(root);
    SecondWaits(root);
    events := SilentLeave(root);
    RunOn(TwoReflections(root, 1, Running, Asking), Move(1, 0.0, false), events);
    events := [Move(1, 0.0, false)] + events;
    RunOn(TwoReflections(root, 0, Asking, Asking), Move(0, 0.0, false), events);
    events := [Move(0, 0.0, false)] + events;
  }

  /** A single cancelled notification can leave a task asleep for good: it sleeps, and nothing
      runs or is between two awaits. */
  lemma CancelledNotificationStrands(root: Meter) returns (s: State, events: seq<Event>)
    requires IdleRoot(root)
    ensures Initial(s)
    ensures var t := Run(s, events); Settled(t) && !SomethingRuns(t) && |t.tasks| == 2 && t.tasks[1].status.Sleeping?
  {
    s := TwoReflections(root, 0, Asking, Asking).(tasks := []);
    ReflectionsSpawn(root);
    var moves := SecondSleeps(root);
    var spawns := [Spawn(true, Training, 1), Spawn(true, Training, 1)];
    RunOnAfter(s, spawns, moves);
    events := spawns + moves;
  }
}
