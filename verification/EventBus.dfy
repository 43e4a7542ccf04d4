/** The consumer side of the event bus: delivery in id order behind an acked cursor. */
module EventBuses {
  import opened Options
  import opened Sorting

  /** The cursor file; an unreadable one counts as none. */
  datatype Cursor = NoCursor | Torn | At(id: string)

  /** Event files by name, with whether they read as events. */
  datatype Bus = Bus(files: map<string, bool>, cursor: Cursor)

  datatype Reason = NoSuchEvent | NothingPending | NotOldest

  datatype Answer = Advanced | NoOp | Rejected(reason: Reason)

  function Position(c: Cursor): Option<string> {
    if c.At? && c.id != "" then Some(c.id) else None
  }

  /** At or below the position. */
  predicate Passed(position: Option<string>, id: string) {
    position.Some? && TextLe(id, position.value)
  }

  function Pending(b: Bus): set<string> {
    set n | n in b.files && b.files[n] && !Passed(Position(b.cursor), n)
  }

  ghost predicate IsOldest(pending: set<string>, n: string) {
    n in pending && forall m :: m in pending ==> TextLe(n, m)
  }

  lemma {:induction false} SomeOldest(pending: set<string>)
    requires pending != {}
    ensures exists n :: IsOldest(pending, n)
    decreases |pending|
  {
    var x :| x in pending;
    var rest := pending - {x};
    TextTotal(x, x);
    if rest == {} {
      forall m | m in pending ensures m == x {
        assert m in rest || m == x;
      }
      assert IsOldest(pending, x);
    } else {
      SomeOldest(rest);
      var n :| IsOldest(rest, n);
      TextTotal(x, n);
      if TextLe(n, x) {
        assert IsOldest(pending, n);
      } else {
        forall m | m in pending ensures TextLe(x, m) {
          if m != x {
            TextTransitive(x, n, m);
          }
        }
        assert IsOldest(pending, x);
      }
    }
  }

  /** The oldest pending event, if there is one. */
  ghost function Oldest(b: Bus): (r: Option<string>)
    ensures r.None? <==> Pending(b) == {}
    ensures r.Some? ==> IsOldest(Pending(b), r.value)
  {
    if Pending(b) == {} then None
    else
      SomeOldest(Pending(b));
      var n :| IsOldest(Pending(b), n);
      Some(n)
  }

  lemma OldestIsOne(b: Bus, n: string)
    requires IsOldest(Pending(b), n)
    ensures Oldest(b) == Some(n)
  {
    TextTotal(n, Oldest(b).value);
  }

  /** What acking does. */
  ghost function AckTo(b: Bus, id: string): (Bus, Answer) {
    var position := Position(b.cursor);
    if Passed(position, id) then
      if id != position.value && id !in b.files then (b, Rejected(NoSuchEvent)) else (b, NoOp)
    else
      match Oldest(b)
      case None => (b, Rejected(NothingPending))
      case Some(n) => if id != n then (b, Rejected(NotOldest)) else (b.(cursor := At(id)), Advanced)
  }

  /** Names in listing order. */
  method SortedNames(names: set<string>) returns (r: seq<string>)
    ensures forall n :: n in names <==> n in r
    ensures forall i, j :: 0 <= i < j < |r| ==> TextLe(r[i], r[j])
  {
    var rest, listed := names, [];
    while rest != {}
      invariant forall n :: n in names <==> n in rest || n in listed
      decreases |rest|
    {
      var n :| n in rest;
      rest, listed := rest - {n}, listed + [n];
    }
    var key := (n: string) => (n, "");
    SortBySorts(listed, key);
    r := SortBy(listed, key);
    forall n ensures n in listed <==> n in r {
      assert n in listed <==> n in multiset(listed);
      assert n in r <==> n in multiset(r);
    }
    forall i, j | 0 <= i < j < |r| ensures TextLe(r[i], r[j]) {
      assert KeyLe(key(r[i]), key(r[j]));
      TextTotal(r[i], r[j]);
    }
  }

  class EventBus {
    var files: map<string, bool>
    var cursor: Cursor

    function Value(): Bus
      reads this
    {
      Bus(files, cursor)
    }

    constructor ()
      ensures Value() == Bus(map[], NoCursor)
    {
      files, cursor := map[], NoCursor;
    }

    /** Exclusive create: only the first creator of a name succeeds. */
    method Publish(name: string, readable: bool) returns (created: bool)
      modifies this`files
      ensures created <==> name !in old(files)
      ensures files == if created then old(files)[name := readable] else old(files)
    {
      created := name !in files;
      if created {
        files := files[name := readable];
      }
    }

    method NextEvent() returns (r: Option<string>)
      ensures r == Oldest(Value())
    {
      var position := Position(cursor);
      var names := SortedNames(files.Keys);
      var i := 0;
      while i < |names|
        invariant 0 <= i <= |names|
        invariant forall k :: 0 <= k < i ==> names[k] !in Pending(Value())
      {
        var n := names[i];
        assert n in files.Keys;
        if !Passed(position, n) && files[n] {
          forall m | m in Pending(Value()) ensures TextLe(n, m) {
            assert m in files.Keys;
            var k :| 0 <= k < |names| && names[k] == m;
            TextTotal(n, n);
          }
          OldestIsOne(Value(), n);
          return Some(n);
        }
        i := i + 1;
      }
      forall m ensures m !in Pending(Value()) {
        if m in files.Keys {
          assert m in names;
        }
      }
      r := None;
    }

    method Ack(id: string) returns (r: Answer)
      modifies this`cursor
      ensures (Value(), r) == AckTo(old(Value()), id)
    {
      var position := Position(cursor);
      if Passed(position, id) {
        if id != position.value && id !in files {
          return Rejected(NoSuchEvent);
        }
        return NoOp;
      }
      var pending := NextEvent();
      if pending.None? {
        return Rejected(NothingPending);
      }
      if id != pending.value {
        return Rejected(NotOldest);
      }
      cursor := At(id);
      r := Advanced;
    }
  }

  /** A pending event can be acked exactly when no other pending event sorts before it. */
  lemma AckAdvancesExactly(b: Bus, id: string)
    requires id in Pending(b)
    ensures AckTo(b, id).1.Advanced? <==> forall m :: m in Pending(b) ==> TextLe(id, m)
    ensures AckTo(b, id) == if AckTo(b, id).1.Advanced? then (b.(cursor := At(id)), Advanced) else (b, Rejected(NotOldest))
  {
    if IsOldest(Pending(b), id) {
      OldestIsOne(b, id);
    }
  }

  lemma OvertakenIsRejected(b: Bus, id: string, earlier: string)
    requires id in Pending(b) && earlier in Pending(b) && id != earlier && TextLe(earlier, id)
    ensures AckTo(b, id) == (b, Rejected(NotOldest))
  {
    AckAdvancesExactly(b, id);
    TextTotal(id, earlier);
  }

  // ----- runs of creations, acks and torn cursors -----

  /** `log` holds the acks that advanced the cursor since it was last lost, `acked` all of them. */
  datatype State = State(bus: Bus, log: seq<string>, acked: set<string>)

  datatype Event = Create(name: string, readable: bool) | Ack(id: string) | Tear

  const START := State(Bus(map[], NoCursor), [], {})

  ghost function Step(s: State, e: Event): State {
    match e
    case Create(name, readable) =>
      if name in s.bus.files then s else s.(bus := s.bus.(files := s.bus.files[name := readable]))
    case Ack(id) =>
      var (bus, answer) := AckTo(s.bus, id);
      if answer.Advanced? then State(bus, s.log + [id], s.acked + {id}) else s
    case Tear => s.(bus := s.bus.(cursor := Torn), log := [])
  }

  ghost function Run(s: State, events: seq<Event>): State
    decreases |events|
  {
    if events == [] then s else Run(Step(s, events[0]), events[1..])
  }

  lemma {:induction false} RunOneMore(s: State, events: seq<Event>, e: Event)
    ensures Run(s, []) == s && Run(s, events + [e]) == Step(Run(s, events), e)
    decreases |events|
  {
    if events == [] {
      assert ([] + [e])[1..] == [];
    } else {
      RunOneMore(Step(s, events[0]), events[1..], e);
      assert (events + [e])[1..] == events[1..] + [e];
    }
  }

  /** Every event is created above the cursor of the moment. */
  ghost predicate CreatesAhead(s: State, events: seq<Event>)
    decreases |events|
  {
    events == [] ||
    (&& (events[0].Create? ==> !Passed(Position(s.bus.cursor), events[0].name))
     && CreatesAhead(Step(s, events[0]), events[1..]))
  }

  ghost predicate Increasing(ids: seq<string>) {
    forall i, j :: 0 <= i < j < |ids| ==> TextLe(ids[i], ids[j]) && ids[i] != ids[j]
  }

  /** No event at or below the cursor is still unacked, and acks advance in order. */
  ghost predicate Delivered(s: State) {
    && (forall n :: n in s.bus.files && s.bus.files[n] && Passed(Position(s.bus.cursor), n) ==> n in s.acked)
    && (forall n :: n in s.bus.files && n == "" ==> !s.bus.files[n])
    && Increasing(s.log)
    && Position(s.bus.cursor) == if s.log == [] then None else Some(s.log[|s.log| - 1])
  }

  lemma AckDelivers(s: State, id: string)
    requires Delivered(s)
    ensures Delivered(Step(s, Ack(id)))
  {
    var (bus, answer) := AckTo(s.bus, id);
    if answer.Advanced? {
      var position := Position(s.bus.cursor);
      assert id in Pending(s.bus) && s.bus.files[id];
      forall n | n in bus.files && bus.files[n] && Passed(Position(bus.cursor), n) ensures n in s.acked + {id} {
        if !Passed(position, n) {
          assert n in Pending(s.bus);
          TextTotal(id, n);
        }
      }
      if position.Some? {
        TextTotal(position.value, id);
        forall i | 0 <= i < |s.log| ensures TextLe(s.log[i], id) && s.log[i] != id {
          TextTotal(position.value, position.value);
          TextTransitive(s.log[i], position.value, id);
        }
      }
    }
  }

  lemma {:induction false} RunDelivers(s: State, events: seq<Event>)
    requires Delivered(s) && CreatesAhead(s, events)
    requires forall i :: 0 <= i < |events| && events[i].Create? ==> events[i].name != ""
    ensures Delivered(Run(s, events))
    decreases |events|
  {
    if events != [] {
      if events[0].Ack? {
        AckDelivers(s, events[0].id);
      }
      RunDelivers(Step(s, events[0]), events[1..]);
    }
  }

  /** If every event is created above the cursor, then in every run of creations, acks, repeated
      acks and lost cursors each readable event at or below the cursor was acked, and acks
      advance in increasing id order until the cursor is lost. */
  lemma NothingIsSkipped(events: seq<Event>)
    requires CreatesAhead(START, events)
    requires forall i :: 0 <= i < |events| && events[i].Create? ==> events[i].name != ""
    ensures var s := Run(START, events);
      && (forall n :: n in s.bus.files && s.bus.files[n] && Passed(Position(s.bus.cursor), n) ==> n in s.acked)
      && Increasing(s.log)
  {
    RunDelivers(START, events);
  }

  /** Acking again what was acked changes nothing and is not an error. */
  lemma AckTwice(b: Bus, id: string)
    requires AckTo(b, id).1.Advanced? && id != ""
    ensures var after := AckTo(b, id).0; AckTo(after, id) == (after, NoOp)
  {
    TextTotal(id, id);
  }

  /** What each event does to what is pending: a new readable event above the cursor joins it, an
      accepted ack takes exactly the acked event and what sorts before it away, and a lost cursor
      brings back every readable event. */
  lemma PendingExactly(s: State, e: Event)
    requires "" !in Pending(s.bus)
    ensures var before, t := Pending(s.bus), Step(s, e);
      var after := Pending(t.bus);
      match e
      case Create(name, readable) =>
        after == before + (if name !in s.bus.files && readable && !Passed(Position(s.bus.cursor), name) then {name} else {})
      case Ack(id) =>
        if IsOldest(before, id) then after == before - {id} && t.acked == s.acked + {id}
        else after == before && t.acked == s.acked
      case Tear => after == set n | n in s.bus.files && s.bus.files[n]
  {
    match e
    case Create(_, _) =>
    case Ack(id) =>
      AckPending(s, id);
    case Tear =>
  }

  lemma AckPending(s: State, id: string)
    requires "" !in Pending(s.bus)
    ensures var before, t := Pending(s.bus), Step(s, Ack(id));
      if IsOldest(before, id) then Pending(t.bus) == before - {id} && t.acked == s.acked + {id}
      else Pending(t.bus) == before && t.acked == s.acked
  {
    var before := Pending(s.bus);
    if IsOldest(before, id) {
      OldestIsOne(s.bus, id);
      OldestPending(s.bus, id);
    }
  }

  /** Moving the cursor to the oldest pending event leaves the others pending. */
  lemma OldestPending(b: Bus, id: string)
    requires IsOldest(Pending(b), id) && id != ""
    ensures Pending(b.(cursor := At(id))) == Pending(b) - {id}
  {
    forall n | n in b.files && b.files[n]
      ensures Passed(Some(id), n) <==> Passed(Position(b.cursor), n) || n == id
    {
      TextTotal(n, id);
      if Passed(Position(b.cursor), n) {
        TextTotal(b.cursor.id, id);
        TextTransitive(n, b.cursor.id, id);
      }
    }
  }

  lemma PassedStays(b: Bus, e: Event, s: State, n: string)
    requires s.bus == b && Passed(Position(b.cursor), n) && !e.Tear?
    requires forall m :: m in b.files && m == "" ==> !b.files[m]
    ensures Passed(Position(Step(s, e).bus.cursor), n)
  {
    if e.Ack? && AckTo(b, e.id).1.Advanced? {
      var position := Position(b.cursor);
      assert e.id in Pending(b);
      TextTotal(position.value, e.id);
      TextTransitive(n, position.value, e.id);
    }
  }

  /** An event created at or below the cursor is never delivered, until the cursor is lost. */
  lemma {:induction false} LateEventsAreNotDelivered(s: State, events: seq<Event>, n: string)
    requires Passed(Position(s.bus.cursor), n) && forall i :: 0 <= i < |events| ==> !events[i].Tear?
    requires (forall m :: m in s.bus.files && m == "" ==> !s.bus.files[m])
    requires forall i :: 0 <= i < |events| && events[i].Create? ==> events[i].name != ""
    ensures Oldest(Run(s, events).bus) != Some(n)
    decreases |events|
  {
    if events != [] {
      PassedStays(s.bus, events[0], s, n);
      LateEventsAreNotDelivered(Step(s, events[0]), events[1..], n);
    }
  }
}
