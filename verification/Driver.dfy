/** The crash-recovering driver: a saved state, a running process that may die between any two
    saves, and the world around them.

    Every change of the saved state is followed by its save before anything else happens, so one
    step of the model is one save, or one action outside. */
module Drivers {
  import opened Options
  import B = EventBuses

  datatype Phase = Recorded | Received | Leased | Started | Exited | GuardPassed | RetryReady | Scoring | ScoringRun

  datatype Pause = UsageLimit | AttemptLimit | ScoringPause | OtherPause

  /** A reflection step.  `failedAttempt` and `fallback` are set when its outcome is first handled. */
  datatype Work = Work(number: nat, lane: Option<string>, limited: bool, failedAttempt: Option<nat>,
                       fallback: Option<nat>, resumeEpoch: nat)

  /** The private state file. */
  datatype Disk = Disk(hash: int, index: nat, attempts: map<string, nat>, step: Option<Work>, pause: Option<Pause>,
                       sequence: nat, event: Option<string>, phase: Phase)

  /** Where a running driver is. */
  datatype Place =
    | Dispatching | Working | Resolving | Deciding | AfterLimit | AfterResume | AfterFail(count: nat)
    | Recording | Acking | Clearing

  datatype Process = Off | On(entries: nat, cap: nat, at: Place)

  /** `nominated` are the steps that led to a nomination; a nomination is not withdrawn. */
  datatype World = World(bus: B.Bus, epoch: nat, nominated: set<nat>)

  /** What happened: failed steps by key and usage-limited steps, since their counts were last
      reset; received events and how many of them were acked; steps that resumed the reflector. */
  datatype History = History(failed: map<string, set<nat>>, limited: set<nat>, received: seq<string>, finished: nat,
                             resumed: seq<nat>)

  datatype State = State(disk: Disk, process: Process, world: World, history: History)

  datatype Event =
    | Start(digest: int, accept: bool, entries: nat, cap: nat, survivors: bool, again: bool, dies: bool)
    | Crash
    | Dispatch
    | Receive
    | Lease(lane: Option<string>)
    | Launch
    | Exit(limited: bool)
    | Guard(survivors: bool)
    | Decide
    | Resume
    | Retry
    | Score
    | Scored
    | Conclude
    | Record
    | AckEvent
    | Clear
    | Halt(scoring: bool)
    | Publish(name: string, readable: bool)
    | Nominate
    | Bump

  function Begin(digest: int): State {
    State(Disk(digest, 0, map[], None, None, 0, None, Phase.Recorded), Off, World(B.Bus(map[], B.NoCursor), 0, {}),
          History(map[], {}, [], 0, []))
  }

  function KeyOf(lane: Option<string>): string {
    if lane.Some? then lane.value else "single"
  }

  function Attempts(attempts: map<string, nat>, key: string): nat {
    if key in attempts then attempts[key] else 0
  }

  function FailedOf(failed: map<string, set<nat>>, key: string): set<nat> {
    if key in failed then failed[key] else {}
  }

  predicate At(s: State, place: Place) {
    s.process.On? && s.process.at == place
  }

  function Go(s: State, place: Place): State
    requires s.process.On?
  {
    s.(process := s.process.(at := place))
  }

  /** Pausing saves the reason and ends the process. */
  function Paused(s: State, reason: Pause): State {
    s.(disk := s.disk.(pause := Some(reason)), process := Off)
  }

  // ----- starting -----

  predicate Guarded(phase: Phase) {
    phase.Leased? || phase.Started? || phase.Exited? || phase.GuardPassed? || phase.RetryReady?
  }

  /** Accepting another reflector list. */
  function Accepted(s: State, digest: int): State {
    if s.disk.hash == digest then s
    else
      var d := s.disk.(hash := digest, index := 0);
      var e := if s.disk.pause != Some(UsageLimit) && Guarded(d.phase) then d.(step := None, phase := RetryReady) else d;
      s.(disk := e, history := s.history.(limited := {}))
  }

  /** The reflector is resumed for a usage-limited step of a single checkout, unless its epoch has
      moved on. */
  function Resumed(s: State): State {
    if s.disk.step.Some? && s.disk.step.value.lane.None? && s.disk.step.value.fallback.Some? &&
       s.world.epoch == s.disk.step.value.resumeEpoch then
      s.(world := s.world.(epoch := s.world.epoch + 1),
         history := s.history.(resumed := s.history.resumed + [s.disk.step.value.number]))
    else s
  }

  /** Recovery from the pauses that reset a count. */
  function Recovered(s: State): State {
    var pause := s.disk.pause;
    if pause == Some(UsageLimit) then
      s.(disk := s.disk.(index := 0, step := None, phase := Phase.Received, pause := None),
         history := s.history.(limited := {}))
    else if pause == Some(AttemptLimit) then
      s.(disk := s.disk.(attempts := map[], step := None, phase := Phase.Received, pause := None),
         history := s.history.(failed := map[]))
    else s.(disk := s.disk.(pause := None))
  }

  /** `Driver.__init__`: with `dies` the process ends after resuming and before saving. */
  function Initialized(s: State, e: Event): State
    requires e.Start?
  {
    if e.survivors && s.disk.step.Some? then Paused(s, OtherPause)
    else if e.again && s.disk.pause == Some(ScoringPause) then Paused(s, ScoringPause)
    else if s.disk.hash != e.digest && !e.accept then s
    else
      var changed := Accepted(s, e.digest);
      var resumed := if changed.disk.pause == Some(UsageLimit) then Resumed(changed) else changed;
      if e.dies then s.(world := resumed.world, history := s.history.(resumed := resumed.history.resumed))
      else Recovered(resumed).(process := On(e.entries, e.cap, Dispatching))
  }

  // ----- the loop -----

  function Dispatched(s: State): State
    requires s.process.On?
  {
    match s.disk.phase
    case Recorded => Go(s, Recording)
    case Exited => Go(s, Resolving)
    case GuardPassed => Go(s, Resolving)
    case _ => Go(s, Working)
  }

  ghost function Receives(s: State): State
    requires s.process.On?
  {
    match B.Oldest(s.world.bus)
    case None => s
    case Some(id) =>
      s.(disk := s.disk.(event := Some(id), phase := Phase.Received),
         history := s.history.(received := s.history.received + [id]))
  }

  /** The outcome of a step, first handled or handled again after a crash. */
  function Decided(s: State): State
    requires s.process.On? && s.disk.step.Some?
  {
    var w := s.disk.step.value;
    var key := KeyOf(w.lane);
    if w.number in s.world.nominated then
      Go(s.(disk := s.disk.(attempts := s.disk.attempts[key := 0]),
            history := s.history.(failed := s.history.failed[key := {}])),
         if w.lane.Some? then Recording else Working)
    else if w.limited then
      var fallback := if w.fallback.Some? then w.fallback.value else s.disk.index + 1;
      var epoch := if w.fallback.Some? then w.resumeEpoch else s.world.epoch;
      Go(s.(disk := s.disk.(index := fallback, step := Some(w.(fallback := Some(fallback), resumeEpoch := epoch))),
            history := s.history.(limited := s.history.limited + {w.number})),
         AfterLimit)
    else
      var count := if w.failedAttempt.Some? then w.failedAttempt.value else Attempts(s.disk.attempts, key) + 1;
      Go(s.(disk := s.disk.(attempts := s.disk.attempts[key := count], step := Some(w.(failedAttempt := Some(count)))),
            history := s.history.(failed := s.history.failed[key := FailedOf(s.history.failed, key) + {w.number}])),
         AfterFail(count))
  }

  /** After a limit or a failure was saved: pause when the list or the attempts are used up. */
  function Retried(s: State): State
    requires s.process.On?
  {
    match s.process.at
    case AfterFail(count) =>
      if count >= s.process.cap then Paused(s, AttemptLimit)
      else Go(s.(disk := s.disk.(phase := RetryReady, step := None)), Working)
    case AfterResume => Go(s.(disk := s.disk.(phase := RetryReady, step := None)), Working)
    case _ => s
  }

  ghost function Acks(s: State): State
    requires s.process.On?
  {
    if s.disk.event.None? then Go(s, Clearing)
    else
      var (bus, answer) := B.AckTo(s.world.bus, s.disk.event.value);
      if answer.Rejected? then s.(process := Off)
      else Go(s.(world := s.world.(bus := bus), history := s.history.(finished := |s.history.received|)), Clearing)
  }

  ghost function Step(s: State, e: Event): State {
    if s.process.Off? then
      match e
      case Start(_, _, _, _, _, _, _) => Initialized(s, e)
      case Publish(name, readable) => Published(s, name, readable)
      case Nominate => Nominated(s)
      case Bump => s.(world := s.world.(epoch := s.world.epoch + 1))
      case _ => s
    else
      match e
      case Start(_, _, _, _, _, _, _) => s
      case Crash => s.(process := Off)
      case Dispatch => if At(s, Dispatching) then Dispatched(s) else s
      case Receive => if At(s, Working) && s.disk.event.None? then Receives(s) else s
      case Lease(lane) =>
        if At(s, Working) then
          var n := s.disk.sequence + 1;
          s.(disk := s.disk.(phase := Leased, step := Some(Work(n, lane, false, None, None, 0)), sequence := n))
        else s
      case Launch => if At(s, Working) && s.disk.phase.Leased? then s.(disk := s.disk.(phase := Started)) else s
      case Exit(limited) =>
        if At(s, Working) && s.disk.phase.Started? && s.disk.step.Some? then
          Go(s.(disk := s.disk.(phase := Exited, step := Some(s.disk.step.value.(limited := limited)))), Resolving)
        else s
      case Guard(survivors) =>
        if At(s, Resolving) then
          if survivors then Paused(s, OtherPause) else Go(s.(disk := s.disk.(phase := GuardPassed)), Deciding)
        else s
      case Decide => if At(s, Deciding) && s.disk.step.Some? then Decided(s) else s
      case Resume =>
        if At(s, AfterLimit) then
          if s.disk.index >= s.process.entries then Paused(s, UsageLimit) else Go(Resumed(s), AfterResume)
        else s
      case Retry => Retried(s)
      case Score => if At(s, Working) then s.(disk := s.disk.(phase := Scoring)) else s
      case Scored => if At(s, Working) && s.disk.phase.Scoring? then Go(s.(disk := s.disk.(phase := ScoringRun)), Recording) else s
      case Conclude => if At(s, Working) then Go(s, Recording) else s
      case Record => if At(s, Recording) then Go(s.(disk := s.disk.(phase := Phase.Recorded, step := None)), Acking) else s
      case AckEvent => if At(s, Acking) then Acks(s) else s
      case Clear => if At(s, Clearing) then Go(s.(disk := s.disk.(event := None)), Working) else s
      case Halt(scoring) => Paused(s, if scoring then ScoringPause else OtherPause)
      case Publish(name, readable) => Published(s, name, readable)
      case Nominate => Nominated(s)
      case Bump => s.(world := s.world.(epoch := s.world.epoch + 1))
  }

  function Published(s: State, name: string, readable: bool): State {
    if name in s.world.bus.files || name == "" then s
    else s.(world := s.world.(bus := s.world.bus.(files := s.world.bus.files[name := readable])))
  }

  function Nominated(s: State): State {
    if s.disk.step.None? then s
    else s.(world := s.world.(nominated := s.world.nominated + {s.disk.step.value.number}))
  }

  ghost function Run(s: State, events: seq<Event>): State
    decreases |events|
  {
    if events == [] then s else Run(Step(s, events[0]), events[1..])
  }
}
