/** What every run of the driver keeps, whatever crashes, pauses and restarts it goes through. */
module DriverRuns {
  import opened Options
  import B = EventBuses
  import Order = Sorting
  import opened Drivers

  // ----- counts -----

  /** Attempts and the reflector index count distinct steps. */
  ghost predicate CountsFit(s: State) {
    && (forall key :: Attempts(s.disk.attempts, key) == |FailedOf(s.history.failed, key)|)
    && s.disk.index == |s.history.limited|
  }

  /** Numbers in the history belong to steps that were started. */
  ghost predicate NumbersFit(s: State) {
    && (forall key, n :: n in FailedOf(s.history.failed, key) ==> n <= s.disk.sequence)
    && (forall n :: n in s.history.limited ==> n <= s.disk.sequence)
    && (forall n :: n in s.history.resumed ==> n <= s.disk.sequence)
    && (forall n :: n in s.world.nominated ==> n <= s.disk.sequence)
    && (s.disk.step.Some? ==> s.disk.step.value.number == s.disk.sequence)
  }

  /** The outcome of `w` has been counted as a failure exactly when it says so. */
  ghost predicate FailureFits(s: State, w: Work) {
    var key := KeyOf(w.lane);
    && (w.failedAttempt.None? ==> w.number !in FailedOf(s.history.failed, key))
    && (w.failedAttempt.Some? && w.number !in s.world.nominated ==>
          w.number in FailedOf(s.history.failed, key) && Attempts(s.disk.attempts, key) == w.failedAttempt.value)
  }

  /** ... and as usage-limited. */
  ghost predicate LimitFits(s: State, w: Work) {
    && (w.fallback.None? ==> w.number !in s.history.limited)
    && (w.fallback.Some? ==> w.limited && !s.disk.phase.Leased? && !s.disk.phase.Started?)
    && (w.fallback.Some? && w.number !in s.world.nominated ==>
          w.number in s.history.limited && s.disk.index == w.fallback.value && s.disk.phase.GuardPassed?)
  }

  /** A step that resumed the reflector sees a later epoch. */
  ghost predicate ResumeFits(s: State, w: Work) {
    w.number in s.history.resumed ==> w.fallback.Some? && s.world.epoch > w.resumeEpoch
  }

  /** The places where the outcome of a step is at hand. */
  predicate Handling(at: Place) {
    at.Deciding? || at.AfterLimit? || at.AfterResume? || at.AfterFail?
  }

  /** The places a usage-limited step without a nomination can be at. */
  predicate MayBeLimited(at: Place) {
    at.Dispatching? || at.Resolving? || at.Deciding? || at.AfterLimit? || at.AfterResume?
  }

  ghost predicate PhaseFits(d: Disk) {
    d.phase.Exited? || d.phase.GuardPassed? ==> d.step.Some?
  }

  ghost predicate SavedFits(d: Disk) {
    && PhaseFits(d)
    && (d.pause == Some(UsageLimit) || d.pause == Some(AttemptLimit) ==> d.phase.GuardPassed?)
  }

  /** Where the process can be with a step at hand. */
  ghost predicate PlaceFits(s: State) {
    s.process.On? ==>
      var at := s.process.at;
      && s.disk.pause.None?
      && (Handling(at) ==> s.disk.step.Some? && s.disk.phase.GuardPassed?)
      && (at.Resolving? ==> s.disk.step.Some? && (s.disk.phase.Exited? || s.disk.phase.GuardPassed?))
      && (at.AfterLimit? || at.AfterResume? ==> s.disk.step.value.fallback.Some?)
      && (at.AfterFail? ==> FailsWith(s, s.disk.step.value, at.count))
      && (s.disk.step.Some? && s.disk.step.value.fallback.Some? && s.disk.step.value.number !in s.world.nominated ==>
            MayBeLimited(at))
  }

  ghost predicate FailsWith(s: State, w: Work, count: nat) {
    w.failedAttempt == Some(count) && Attempts(s.disk.attempts, KeyOf(w.lane)) == count && w.number in FailedOf(s.history.failed, KeyOf(w.lane))
  }

  ghost predicate WorkFits(s: State, w: Work) {
    FailureFits(s, w) && LimitFits(s, w) && ResumeFits(s, w)
  }

  ghost predicate StepsFit(s: State) {
    NumbersFit(s) && SavedFits(s.disk) && PlaceFits(s) && (s.disk.step.Some? ==> WorkFits(s, s.disk.step.value))
  }

  ghost predicate Distinct(ns: seq<nat>) {
    forall i, j :: 0 <= i < j < |ns| ==> ns[i] != ns[j]
  }

  ghost predicate Sound(s: State) {
    CountsFit(s) && StepsFit(s) && Distinct(s.history.resumed)
  }

  // ----- one step -----

  lemma ResumedOnce(s: State)
    requires NumbersFit(s) && Distinct(s.history.resumed)
    requires s.disk.step.Some? ==> ResumeFits(s, s.disk.step.value)
    ensures var t := Resumed(s);
      && NumbersFit(t) && Distinct(t.history.resumed) && t.disk == s.disk && t.process == s.process
      && t.history == s.history.(resumed := t.history.resumed) && t.world == s.world.(epoch := t.world.epoch)
      && (s.disk.step.Some? ==> ResumeFits(t, s.disk.step.value))
  {
  }

  lemma RecoveredSound(s: State, entries: nat, cap: nat)
    requires CountsFit(s) && NumbersFit(s) && Distinct(s.history.resumed) && PhaseFits(s.disk)
    requires s.disk.step.Some? && s.disk.pause != Some(UsageLimit) && s.disk.pause != Some(AttemptLimit) ==>
               WorkFits(s, s.disk.step.value)
    ensures Sound(Recovered(s).(process := On(entries, cap, Dispatching)))
  {
  }

  lemma AcceptedSound(s: State, digest: int)
    requires Sound(s) && s.process.Off?
    ensures var t := Accepted(s, digest);
      && CountsFit(t) && NumbersFit(t) && Distinct(t.history.resumed) && PhaseFits(t.disk)
      && t.world == s.world && t.history == s.history.(limited := t.history.limited)
      && (t.disk.step.Some? ==> ResumeFits(t, t.disk.step.value))
      && (t.disk.step.Some? && t.disk.pause != Some(UsageLimit) ==> WorkFits(t, t.disk.step.value))
  {
  }

  lemma StartSound(s: State, e: Event)
    requires Sound(s) && s.process.Off? && e.Start?
    ensures Sound(Initialized(s, e))
  {
    if !(e.survivors && s.disk.step.Some?) && !(e.again && s.disk.pause == Some(ScoringPause)) &&
       (s.disk.hash == e.digest || e.accept) {
      AcceptedSound(s, e.digest);
      var changed := Accepted(s, e.digest);
      ResumedOnce(changed);
      ResumedOnce(s);
      if !e.dies {
        RecoveredSound(if changed.disk.pause == Some(UsageLimit) then Resumed(changed) else changed, e.entries, e.cap);
      }
    }
  }

  lemma NominatedSound(s: State)
    requires Sound(s) && At(s, Deciding) && s.disk.step.Some? && s.disk.step.value.number in s.world.nominated
    ensures Sound(Decided(s))
  {
    var t, k := Decided(s), KeyOf(s.disk.step.value.lane);
    forall key ensures Attempts(t.disk.attempts, key) == |FailedOf(t.history.failed, key)| {
      assert key != k ==> Attempts(t.disk.attempts, key) == Attempts(s.disk.attempts, key);
    }
    forall key, n | n in FailedOf(t.history.failed, key) ensures n <= t.disk.sequence {
      assert key != k ==> n in FailedOf(s.history.failed, key);
    }
  }

  lemma LimitedSound(s: State)
    requires Sound(s) && At(s, Deciding) && s.disk.step.Some? && s.disk.step.value.number !in s.world.nominated
    requires s.disk.step.value.limited
    ensures Sound(Decided(s))
  {
    var w := s.disk.step.value;
    assert WorkFits(s, w);
    if w.fallback.Some? {
      assert s.history.limited + {w.number} == s.history.limited;
    } else {
      assert |s.history.limited + {w.number}| == |s.history.limited| + 1;
    }
  }

  lemma FailedSound(s: State)
    requires Sound(s) && At(s, Deciding) && s.disk.step.Some? && s.disk.step.value.number !in s.world.nominated
    requires !s.disk.step.value.limited
    ensures Sound(Decided(s))
  {
    var w := s.disk.step.value;
    var t, k := Decided(s), KeyOf(w.lane);
    assert WorkFits(s, w);
    var before := FailedOf(s.history.failed, k);
    assert Attempts(s.disk.attempts, k) == |before|;
    if w.failedAttempt.Some? {
      assert before + {w.number} == before;
    } else {
      assert |before + {w.number}| == |before| + 1;
    }
    forall key ensures Attempts(t.disk.attempts, key) == |FailedOf(t.history.failed, key)| {
      assert key != k ==> Attempts(t.disk.attempts, key) == Attempts(s.disk.attempts, key);
    }
    forall key, n | n in FailedOf(t.history.failed, key) ensures n <= t.disk.sequence {
      assert key != k ==> n in FailedOf(s.history.failed, key);
    }
  }

  lemma RetriedSound(s: State)
    requires Sound(s) && s.process.On?
    ensures Sound(Retried(s))
  {
  }

  /** The world moves: events appear, the step is nominated, epochs pass. */
  lemma WorldSound(s: State, t: State)
    requires Sound(s) && t == s.(world := t.world)
    requires t.world.epoch >= s.world.epoch && s.world.nominated <= t.world.nominated
    requires forall n :: n in t.world.nominated ==> n <= s.disk.sequence
    ensures Sound(t)
  {
  }

  lemma LeaseSound(s: State, lane: Option<string>)
    requires Sound(s)
    ensures Sound(Step(s, Lease(lane)))
  {
    if s.process.On? && At(s, Working) {
      var t := Step(s, Lease(lane));
      var n := s.disk.sequence + 1;
      assert n !in FailedOf(s.history.failed, KeyOf(lane));
      assert WorkFits(t, t.disk.step.value);
    }
  }

  lemma WorkingSound(s: State, e: Event)
    requires Sound(s) && s.process.On? && (e.Launch? || e.Score? || e.Scored?)
    ensures Sound(Step(s, e))
  {
  }

  lemma RunningSound(s: State, e: Event)
    requires Sound(s) && s.process.On? && (e.Exit? || e.Guard?)
    ensures Sound(Step(s, e))
  {
  }

  lemma DispatchSound(s: State)
    requires Sound(s) && At(s, Dispatching)
    ensures Sound(Dispatched(s))
  {
  }

  /** A dead process is nowhere. */
  lemma OffSound(s: State, t: State)
    requires Sound(s) && t == s.(process := Off, disk := s.disk.(pause := t.disk.pause))
    requires t.disk.pause != s.disk.pause ==> t.disk.pause != Some(UsageLimit) && t.disk.pause != Some(AttemptLimit)
    ensures Sound(t)
  {
  }

  lemma StoppingSound(s: State, e: Event)
    requires Sound(s) && s.process.On? && (e.Crash? || e.Dispatch? || e.Halt?)
    ensures Sound(Step(s, e))
  {
    if !e.Dispatch? {
      OffSound(s, Step(s, e));
    } else if At(s, Dispatching) {
      DispatchSound(s);
    }
  }

  lemma ClosingSound(s: State, e: Event)
    requires Sound(s) && s.process.On? && (e.Conclude? || e.Record? || e.Clear?)
    ensures Sound(Step(s, e))
  {
  }

  lemma ReceiveSound(s: State)
    requires Sound(s) && At(s, Working)
    ensures Sound(Receives(s))
  {
  }

  lemma AckSound(s: State)
    requires Sound(s) && At(s, Acking)
    ensures Sound(Acks(s))
  {
  }

  lemma BusSound(s: State, e: Event)
    requires Sound(s) && s.process.On? && (e.Receive? || e.AckEvent?)
    ensures Sound(Step(s, e))
  {
    if e.Receive? && At(s, Working) {
      ReceiveSound(s);
    } else if e.AckEvent? && At(s, Acking) {
      AckSound(s);
    }
  }

  lemma StepSound(s: State, e: Event)
    requires Sound(s)
    ensures Sound(Step(s, e))
  {
    if e.Publish? || e.Nominate? || e.Bump? {
      WorldSound(s, Step(s, e));
    } else if s.process.Off? {
      if e.Start? {
        StartSound(s, e);
      }
    } else if e.Decide? {
      if At(s, Deciding) {
        DecidedSound(s);
      }
    } else if e.Retry? {
      RetriedSound(s);
    } else if e.Resume? {
      ResumeSound(s);
    } else if e.Lease? {
      LeaseSound(s, e.lane);
    } else if e.Receive? || e.AckEvent? {
      BusSound(s, e);
    } else if e.Launch? || e.Score? || e.Scored? {
      WorkingSound(s, e);
    } else if e.Exit? || e.Guard? {
      RunningSound(s, e);
    } else if e.Conclude? || e.Record? || e.Clear? {
      ClosingSound(s, e);
    } else if !e.Start? {
      StoppingSound(s, e);
    }
  }

  lemma DecidedSound(s: State)
    requires Sound(s) && At(s, Deciding)
    ensures s.disk.step.Some? && Sound(Decided(s))
  {
    var w := s.disk.step.value;
    if w.number in s.world.nominated {
      NominatedSound(s);
    } else if w.limited {
      LimitedSound(s);
    } else {
      FailedSound(s);
    }
  }

  lemma ResumeSound(s: State)
    requires Sound(s) && s.process.On?
    ensures Sound(Step(s, Event.Resume))
  {
    ResumedOnce(s);
  }

  lemma {:induction false} RunSound(s: State, events: seq<Event>)
    requires Sound(s)
    ensures Sound(Run(s, events))
    decreases |events|
  {
    if events != [] {
      StepSound(s, events[0]);
      RunSound(Step(s, events[0]), events[1..]);
    }
  }

  // ----- what a run shows -----

  lemma BeginSound(digest: int)
    ensures Sound(Begin(digest))
  {
  }

  /** Whatever crashes and restarts happen, attempts count each failed step once: they equal the
      number of distinct steps that failed for the key since it was last reset. */
  lemma FailedStepsCountOnce(digest: int, events: seq<Event>, key: string)
    ensures var s := Run(Begin(digest), events);
      Attempts(s.disk.attempts, key) == |FailedOf(s.history.failed, key)|
  {
    BeginSound(digest);
    RunSound(Begin(digest), events);
  }

  /** The reflector index advances once per usage-limited step. */
  lemma LimitedStepsAdvanceOnce(digest: int, events: seq<Event>)
    ensures var s := Run(Begin(digest), events);
      s.disk.index == |s.history.limited|
  {
    BeginSound(digest);
    RunSound(Begin(digest), events);
  }

  /** A usage-limited step resumes the reflector at most once. */
  lemma ResumedAtMostOnce(digest: int, events: seq<Event>)
    ensures Distinct(Run(Begin(digest), events).history.resumed)
  {
    BeginSound(digest);
    RunSound(Begin(digest), events);
  }

  /** The driver pauses for its attempts exactly when as many distinct steps failed as the cap allows. */
  lemma PausesAtCap(digest: int, events: seq<Event>)
    ensures var s := Run(Begin(digest), events);
      s.process.On? && s.process.at.AfterFail? ==>
        && s.disk.step.Some?
        && var failed := FailedOf(s.history.failed, KeyOf(s.disk.step.value.lane));
           && s.disk.step.value.number in failed
           && (Step(s, Retry).disk.pause == Some(AttemptLimit) <==> |failed| >= s.process.cap)
           && (if |failed| >= s.process.cap then Step(s, Retry).process.Off?
               else At(Step(s, Retry), Working) && Step(s, Retry).disk == s.disk.(phase := RetryReady, step := None))
  {
    BeginSound(digest);
    RunSound(Begin(digest), events);
  }

  /** Once a usage limit was saved, the driver pauses exactly when as many distinct steps were
      limited as there are reflectors; otherwise the reflector's epoch moves on unless it already
      has, and the next attempt is made. */
  lemma PausesAtLastReflector(digest: int, events: seq<Event>)
    ensures var s := Run(Begin(digest), events);
      At(s, AfterLimit) ==>
        && s.disk.step.Some? && s.disk.pause.None?
        && var used := |s.history.limited|;
           && (used >= s.process.entries ==> Step(s, Resume).disk.pause == Some(UsageLimit) && Step(s, Resume).process.Off?)
           && (used < s.process.entries ==>
                 && Step(s, Resume).disk == s.disk && Step(s, Resume).process == s.process.(at := AfterResume)
                 && (s.disk.step.value.lane.None? ==> Step(s, Resume).world.epoch != s.disk.step.value.resumeEpoch)
                 && (if s.disk.step.value.lane.None? && s.world.epoch == s.disk.step.value.resumeEpoch then
                       Step(s, Resume).history.resumed == s.history.resumed + [s.disk.step.value.number]
                     else Step(s, Resume).world == s.world && Step(s, Resume).history == s.history)
                 && At(Step(Step(s, Resume), Retry), Working)
                 && Step(Step(s, Resume), Retry).disk == s.disk.(phase := RetryReady, step := None))
  {
    BeginSound(digest);
    RunSound(Begin(digest), events);
  }

  /** An outcome is handled once whatever was saved before a crash: a nomination clears the failures
      of its lane, a usage limit is counted with the limits, anything else with the failures. */
  lemma OutcomeIsCounted(digest: int, events: seq<Event>)
    ensures var s := Run(Begin(digest), events);
      At(s, Deciding) ==>
        && s.disk.step.Some?
        && var w := s.disk.step.value;
           var key := if w.lane.Some? then w.lane.value else "single";
           var t := Step(s, Decide);
           var failed, failedBefore := FailedOf(t.history.failed, key), FailedOf(s.history.failed, key);
           && Attempts(t.disk.attempts, key) == |failed| && t.disk.index == |t.history.limited|
           && (forall other :: other != key ==> Attempts(t.disk.attempts, other) == Attempts(s.disk.attempts, other))
           && failed == (if w.number in s.world.nominated then {} else if w.limited then failedBefore else failedBefore + {w.number})
           && t.history.limited == s.history.limited + (if w.number !in s.world.nominated && w.limited then {w.number} else {})
           && At(t, if w.number in s.world.nominated then (if w.lane.Some? then Recording else Working)
                    else if w.limited then AfterLimit else AfterFail(|failed|))
           && t.world == s.world
  {
    BeginSound(digest);
    RunSound(Begin(digest), events);
    StepSound(Run(Begin(digest), events), Decide);
  }

  /** The driver stopped for its last reflector's limit, at a step of a single checkout. */
  predicate ResumesReflector(d: Disk) {
    d.pause == Some(UsageLimit) && d.step.Some? && d.step.value.lane.None? && d.step.value.fallback.Some?
  }

  /** When a stopped driver comes back, and what it forgets: the reflectors used when their list
      changed or ran out, the attempts when they ran out, and the step at hand with either. */
  lemma RestartsExactly(s: State, e: Event)
    requires s.process.Off? && e.Start?
    ensures var t := Step(s, e);
      var changed := s.disk.hash != e.digest;
      var held := e.survivors && s.disk.step.Some?;
      var scoring := e.again && s.disk.pause == Some(ScoringPause);
      var limited, attempted := s.disk.pause == Some(UsageLimit), s.disk.pause == Some(AttemptLimit);
      && (t.process.On? <==> !held && !scoring && (!changed || e.accept) && !e.dies)
      && (t.process.Off? ==> t.disk == (if held then s.disk.(pause := Some(OtherPause)) else s.disk))
      && (t.process.On? ==>
            && t.process == On(e.entries, e.cap, Dispatching) && t.disk.pause.None? && t.disk.hash == e.digest
            && t.disk.sequence == s.disk.sequence && t.disk.event == s.disk.event
            && t.disk.index == (if changed || limited then 0 else s.disk.index)
            && (forall key :: Attempts(t.disk.attempts, key) == if attempted then 0 else Attempts(s.disk.attempts, key))
            && (limited || attempted ==> t.disk.step.None? && t.disk.phase.Received?)
            && (!limited && !attempted && changed && Guarded(s.disk.phase) ==> t.disk.step.None? && t.disk.phase.RetryReady?)
            && (!limited && !attempted && (!changed || !Guarded(s.disk.phase)) ==>
                  t.disk.step == s.disk.step && t.disk.phase == s.disk.phase))
      && (ResumesReflector(s.disk) && !held && !scoring && (!changed || e.accept) ==>
            t.world.epoch != s.disk.step.value.resumeEpoch)
      && t.world == s.world.(epoch := t.world.epoch)
      && (if t.world.epoch == s.world.epoch then t.history.resumed == s.history.resumed
          else s.disk.step.Some? && t.history.resumed == s.history.resumed + [s.disk.step.value.number])
  {
  }

  /** One reflection step, from taking a lease to its outcome. */
  ghost function Worked(s: State, lane: Option<string>, limited: bool): State {
    Step(Step(Step(Step(s, Lease(lane)), Launch), Exit(limited)), Guard(false))
  }

  lemma WorkedExactly(s: State, lane: Option<string>, limited: bool)
    requires At(s, Working)
    ensures var t := Worked(s, lane, limited);
      && At(t, Deciding) && t.world == s.world && t.history == s.history
      && t.disk == s.disk.(phase := GuardPassed, sequence := s.disk.sequence + 1,
                           step := Some(Work(s.disk.sequence + 1, lane, limited, None, None, 0)))
  {
  }

  /** ... and on to the record when the step was nominated. */
  ghost function Filed(s: State, lane: Option<string>, limited: bool): State {
    var decided := Step(Step(Worked(s, lane, limited), Nominate), Decide);
    Step(if lane.Some? then decided else Step(decided, Conclude), Record)
  }

  lemma FiledExactly(s: State, lane: Option<string>, limited: bool)
    requires At(s, Working)
    ensures var n, key := s.disk.sequence + 1, if lane.Some? then lane.value else "single";
      var t := Filed(s, lane, limited);
      && At(t, Acking) && t.world == s.world.(nominated := s.world.nominated + {n})
      && t.disk == s.disk.(phase := Phase.Recorded, step := None, sequence := n, attempts := s.disk.attempts[key := 0])
      && t.history == s.history.(failed := s.history.failed[key := {}])
  {
    WorkedExactly(s, lane, limited);
    var t := Step(Worked(s, lane, limited), Nominate);
    assert At(t, Deciding) && t.disk.step == Some(Work(s.disk.sequence + 1, lane, limited, None, None, 0));
    NominatedDecides(t, lane);
  }

  lemma NominatedDecides(t: State, lane: Option<string>)
    requires At(t, Deciding) && t.disk.step.Some? && t.disk.step.value.lane == lane
    requires t.disk.step.value.number in t.world.nominated
    ensures var key := if lane.Some? then lane.value else "single";
      var d := Step(t, Decide);
      var u := Step(if lane.Some? then d else Step(d, Conclude), Record);
      && At(u, Acking) && u.world == t.world
      && u.disk == t.disk.(phase := Phase.Recorded, step := None, attempts := t.disk.attempts[key := 0])
      && u.history == t.history.(failed := t.history.failed[key := {}])
  {
  }

  lemma AckClears(t: State)
    requires At(t, Acking) && t.disk.event.Some?
    ensures var u := Step(Step(t, AckEvent), Clear);
      var (bus, answer) := B.AckTo(t.world.bus, t.disk.event.value);
      if answer.Rejected? then u == t.(process := Off)
      else
        && At(u, Working) && u.disk == t.disk.(event := None) && u.world == t.world.(bus := bus)
        && u.history == t.history.(finished := |t.history.received|)
  {
  }

  /** A step that leads to a nomination ends in an event that is done with: the record is saved,
      the event is acked if the bus accepts it, and the failures of its lane are cleared; a driver
      whose ack is rejected stops and still has the event. */
  lemma NominationFinishesEvent(s: State, lane: Option<string>, limited: bool)
    requires At(s, Working) && s.disk.event.Some?
    ensures var key := if lane.Some? then lane.value else "single";
      var t := Step(Step(Filed(s, lane, limited), AckEvent), Clear);
      var (bus, answer) := B.AckTo(s.world.bus, s.disk.event.value);
      && t.disk.phase.Recorded? && t.disk.step.None? && t.disk.attempts == s.disk.attempts[key := 0]
      && t.disk.index == s.disk.index && t.history.received == s.history.received
      && (answer.Rejected? ==> t.process.Off? && t.disk.event == s.disk.event && t.world.bus == s.world.bus)
      && (!answer.Rejected? ==> At(t, Working) && t.disk.event.None? && t.world.bus == bus
                                && t.history.finished == |t.history.received|)
  {
    FiledExactly(s, lane, limited);
    AckClears(Filed(s, lane, limited));
  }

  /** Scoring ends an event in the same way, and its start and its end are saved on the way. */
  lemma ScoringFinishesEvent(s: State)
    requires At(s, Working) && s.disk.event.Some?
    ensures Step(s, Score) == s.(disk := s.disk.(phase := Scoring))
    ensures Step(Step(s, Score), Scored).disk == s.disk.(phase := ScoringRun)
    ensures var t := Step(Step(Step(Step(Step(s, Score), Scored), Record), AckEvent), Clear);
      var (bus, answer) := B.AckTo(s.world.bus, s.disk.event.value);
      && t.disk == s.disk.(phase := Phase.Recorded, step := None, event := if answer.Rejected? then s.disk.event else None)
      && (answer.Rejected? ==> t.process.Off? && t.world == s.world)
      && (!answer.Rejected? ==> At(t, Working) && t.world == s.world.(bus := bus) && t.history.finished == |s.history.received|)
  {
    AckClears(Step(Step(Step(s, Score), Scored), Record));
  }

  // ----- events -----

  /** The places a driver can be at when its event has already been acked. */
  predicate MayBeAcked(at: Place) {
    at.Dispatching? || at.Recording? || at.Acking? || at.Clearing?
  }

  ghost predicate EventFits(s: State) {
    var d, h := s.disk, s.history;
    var position := B.Position(s.world.bus.cursor);
    && h.finished <= |h.received| <= h.finished + 1
    && (d.event.None? ==> h.finished == |h.received|)
    && (d.event.Some? ==> h.received != [] && h.received[|h.received| - 1] == d.event.value)
    && (forall i :: 0 <= i < |h.received| ==> h.received[i] in s.world.bus.files && h.received[i] != "")
    && (forall i :: 0 <= i < h.finished ==> B.Passed(position, h.received[i]))
    && (d.event.Some? && h.finished == |h.received| ==>
          d.phase.Recorded? && (s.process.On? ==> MayBeAcked(s.process.at)))
    && (At(s, Acking) || At(s, Clearing) ==> d.phase.Recorded? && d.step.None?)
    && (At(s, Clearing) ==> h.finished == |h.received|)
    && (forall n :: n in s.world.bus.files ==> n != "")
  }

  lemma AckFits(s: State)
    requires EventFits(s) && At(s, Acking)
    ensures EventFits(Acks(s))
  {
    if s.disk.event.Some? {
      var id := s.disk.event.value;
      var position := B.Position(s.world.bus.cursor);
      var (bus, answer) := B.AckTo(s.world.bus, id);
      Order.TextTotal(id, id);
      if answer.Advanced? {
        forall i | 0 <= i < s.history.finished ensures B.Passed(B.Position(bus.cursor), s.history.received[i]) {
          assert B.Passed(position, s.history.received[i]);
          Order.TextTotal(position.value, id);
          Order.TextTransitive(s.history.received[i], position.value, id);
        }
      }
    }
  }

  /** Starting keeps the event, the bus and what was received; what was recorded stays so. */
  lemma StartKeepsEvent(s: State, e: Event)
    requires SavedFits(s.disk) && s.process.Off? && e.Start?
    ensures var t := Initialized(s, e);
      && t.disk.event == s.disk.event && t.world.bus == s.world.bus
      && t.history.received == s.history.received && t.history.finished == s.history.finished
      && (s.disk.phase.Recorded? ==> t.disk.phase.Recorded?)
      && (t.process.On? ==> t.process.at.Dispatching?)
  {
  }

  lemma SameEventFits(s: State, t: State)
    requires EventFits(s) && t.disk.event == s.disk.event && t.world.bus == s.world.bus
    requires t.history.received == s.history.received && t.history.finished == s.history.finished
    requires s.disk.phase.Recorded? ==> t.disk.phase.Recorded?
    requires t.process.On? ==> t.process.at.Dispatching?
    ensures EventFits(t)
  {
  }

  lemma StartFits(s: State, e: Event)
    requires EventFits(s) && Sound(s) && s.process.Off? && e.Start?
    ensures EventFits(Initialized(s, e))
  {
    StartKeepsEvent(s, e);
    SameEventFits(s, Initialized(s, e));
  }

  lemma ReceiveFits(s: State)
    requires EventFits(s) && At(s, Working) && s.disk.event.None?
    ensures EventFits(Receives(s))
  {
  }

  lemma WorldFits(s: State, e: Event)
    requires EventFits(s) && (e.Publish? || e.Nominate? || e.Bump?)
    ensures EventFits(Step(s, e))
  {
  }

  lemma RunningFits(s: State, e: Event)
    requires EventFits(s) && s.process.On? && (e.Lease? || e.Launch? || e.Exit? || e.Guard?)
    ensures EventFits(Step(s, e))
  {
  }

  lemma DecideFits(s: State)
    requires EventFits(s) && Sound(s) && s.process.On?
    ensures EventFits(Step(s, Decide))
  {
  }

  lemma OnResumeFits(s: State)
    requires EventFits(s) && Sound(s) && s.process.On?
    ensures EventFits(Step(s, Event.Resume))
  {
  }

  lemma RetryFits(s: State)
    requires EventFits(s) && Sound(s) && s.process.On?
    ensures EventFits(Step(s, Retry))
  {
  }

  lemma ClosingFits(s: State, e: Event)
    requires EventFits(s) && s.process.On?
    requires e.Crash? || e.Dispatch? || e.Halt? || e.Score? || e.Scored? || e.Conclude? || e.Record? || e.Clear?
    ensures EventFits(Step(s, e))
  {
  }

  lemma StepFits(s: State, e: Event)
    requires EventFits(s) && Sound(s)
    ensures EventFits(Step(s, e))
  {
    if e.Publish? || e.Nominate? || e.Bump? {
      WorldFits(s, e);
    } else if s.process.Off? {
      if e.Start? {
        StartFits(s, e);
      }
    } else if e.AckEvent? {
      if At(s, Acking) {
        AckFits(s);
      }
    } else if e.Receive? {
      if At(s, Working) && s.disk.event.None? {
        ReceiveFits(s);
      }
    } else if e.Lease? || e.Launch? || e.Exit? || e.Guard? {
      RunningFits(s, e);
    } else if e.Decide? {
      DecideFits(s);
    } else if e.Resume? {
      OnResumeFits(s);
    } else if e.Retry? {
      RetryFits(s);
    } else if !e.Start? {
      ClosingFits(s, e);
    }
  }

  lemma {:induction false} RunFits(s: State, events: seq<Event>)
    requires EventFits(s) && Sound(s)
    ensures EventFits(Run(s, events)) && Sound(Run(s, events))
    decreases |events|
  {
    if events != [] {
      StepSound(s, events[0]);
      StepFits(s, events[0]);
      RunFits(Step(s, events[0]), events[1..]);
    }
  }

  lemma CursorMoves(s: State, e: Event)
    requires EventFits(s) && Step(s, e).world.bus.cursor != s.world.bus.cursor
    ensures e.AckEvent? && s.disk.phase.Recorded? && s.disk.step.None? && s.disk.event.Some?
    ensures Step(s, e).world.bus.cursor == B.At(s.disk.event.value)
  {
  }

  /** The driver moves the cursor only after the phase "recorded" was saved, and only to its event. */
  lemma AckedOnlyWhenRecorded(digest: int, events: seq<Event>, e: Event)
    ensures var s := Run(Begin(digest), events);
      Step(s, e).world.bus.cursor != s.world.bus.cursor ==>
        e.AckEvent? && s.disk.phase.Recorded? && s.disk.step.None? && s.disk.event.Some? &&
        Step(s, e).world.bus.cursor == B.At(s.disk.event.value)
  {
    BeginSound(digest);
    RunFits(Begin(digest), events);
    var s := Run(Begin(digest), events);
    if Step(s, e).world.bus.cursor != s.world.bus.cursor {
      CursorMoves(s, e);
    }
  }

  /** No received event is dropped: each is acked before the next is received, and the driver
      never acts again on one that was acked. */
  lemma EventsAreFinished(digest: int, events: seq<Event>)
    ensures var s := Run(Begin(digest), events);
      && (s.disk.event.None? ==> s.history.finished == |s.history.received|)
      && s.history.finished <= |s.history.received| <= s.history.finished + 1
      && (forall i :: 0 <= i < s.history.finished ==>
            B.Passed(B.Position(s.world.bus.cursor), s.history.received[i]))
      && (s.disk.event.Some? && s.history.finished == |s.history.received| && s.process.On? ==> !s.process.at.Working?)
  {
    BeginSound(digest);
    RunFits(Begin(digest), events);
  }

  /** After a crash between an ack and the save that follows, the event is acked again, which
      changes nothing. */
  lemma RepeatedAckIsHarmless(digest: int, events: seq<Event>)
    ensures var s := Run(Begin(digest), events);
      At(s, Acking) && s.disk.event.Some? && s.history.finished == |s.history.received| ==>
        B.AckTo(s.world.bus, s.disk.event.value) == (s.world.bus, B.NoOp)
  {
    BeginSound(digest);
    RunFits(Begin(digest), events);
  }

  // ----- an overtaken event -----

  /** The driver is about to ack `id`, but an event that sorts before it has appeared since. */
  ghost predicate Overtaken(s: State, id: string, earlier: string) {
    && s.disk.event == Some(id) && s.disk.phase.Recorded?
    && s.disk.pause != Some(UsageLimit) && s.disk.pause != Some(AttemptLimit)
    && (s.process.On? ==> s.process.at.Dispatching? || s.process.at.Recording? || s.process.at.Acking?)
    && id in B.Pending(s.world.bus) && earlier in B.Pending(s.world.bus) && id != earlier && Order.TextLe(earlier, id)
  }

  /** Then the ack is rejected, the driver dies, and no restart ever gets past it. */
  lemma {:induction false} OvertakenForever(s: State, events: seq<Event>, id: string, earlier: string)
    requires Overtaken(s, id, earlier)
    ensures Overtaken(Run(s, events), id, earlier)
    decreases |events|
  {
    if events != [] {
      OvertakenStays(s, events[0], id, earlier);
      OvertakenForever(Step(s, events[0]), events[1..], id, earlier);
    }
  }

  lemma OvertakenStays(s: State, e: Event, id: string, earlier: string)
    requires Overtaken(s, id, earlier)
    ensures Overtaken(Step(s, e), id, earlier)
  {
    if e.AckEvent? && At(s, Acking) {
      B.OvertakenIsRejected(s.world.bus, id, earlier);
    }
  }

  ghost predicate Reachable(s: State) {
    exists digest, events :: Run(Begin(digest), events) == s
  }

  lemma {:induction false} RunOneMore(s: State, events: seq<Event>, e: Event)
    ensures Run(s, events + [e]) == Step(Run(s, events), e)
    decreases |events|
  {
    if events == [] {
      assert ([] + [e])[1..] == [];
    } else {
      RunOneMore(Step(s, events[0]), events[1..], e);
      assert (events + [e])[1..] == events[1..] + [e];
    }
  }

  lemma Reaches(s: State, e: Event)
    requires Reachable(s)
    ensures Reachable(Step(s, e))
  {
    var digest, events :| Run(Begin(digest), events) == s;
    RunOneMore(Begin(digest), events, e);
  }

  /** A driver at `place`, with the given files on the bus. */
  ghost predicate Idle(s: State, place: Place, files: map<string, bool>, event: Option<string>) {
    At(s, place) && s.disk.event == event && s.disk.pause.None? && s.world.bus == B.Bus(files, B.NoCursor)
  }

  lemma ReachesStart() returns (s: State)
    ensures Reachable(s) && Idle(s, Dispatching, map["b" := true], None) && s.disk.phase.Recorded?
  {
    var start := Start(0, false, 1, 1, false, false, false);
    s := Begin(0);
    var none: seq<Event> := [];
    assert Run(Begin(0), none) == s;
    Reaches(s, Publish("b", true));
    s := Step(s, Publish("b", true));
    Reaches(s, start);
    s := Step(s, start);
  }

  lemma ReachesRecording() returns (s: State)
    ensures Reachable(s) && Idle(s, Recording, map["b" := true], None)
  {
    s := ReachesStart();
    Reaches(s, Dispatch);
    s := Step(s, Dispatch);
  }

  lemma ReachesWorking(r: State) returns (s: State)
    requires Reachable(r) && Idle(r, Recording, map["b" := true], None)
    ensures Reachable(s) && Idle(s, Working, map["b" := true], None)
  {
    Reaches(r, Record);
    s := Step(r, Record);
    Reaches(s, AckEvent);
    s := Step(s, AckEvent);
    Reaches(s, Clear);
    s := Step(s, Clear);
  }

  lemma ReceivesIt(s: State)
    requires Idle(s, Working, map["b" := true], None)
    ensures Idle(Step(s, Receive), Working, map["b" := true], Some("b"))
  {
    assert B.Pending(s.world.bus) == {"b"};
    Order.TextTotal("b", "b");
    B.OldestIsOne(s.world.bus, "b");
  }

  lemma GetsOvertaken(s: State)
    requires Idle(s, Working, map["b" := true], Some("b"))
    ensures Overtaken(Step(Step(Step(s, Publish("a", true)), Conclude), Record), "b", "a")
  {
    assert Order.TextLe("a", "b");
  }

  /** It happens: "b" is received, then "a" appears. */
  lemma DriverCanBeOvertaken() returns (s: State)
    ensures Reachable(s) && Overtaken(s, "b", "a")
  {
    var r := ReachesRecording();
    s := ReachesWorking(r);
    ReceivesIt(s);
    Reaches(s, Receive);
    s := Step(s, Receive);
    GetsOvertaken(s);
    Reaches(s, Publish("a", true));
    s := Step(s, Publish("a", true));
    Reaches(s, Conclude);
    s := Step(s, Conclude);
    Reaches(s, Record);
    s := Step(s, Record);
  }
}
