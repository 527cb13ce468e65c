/**
 Exactly when the bridges can latch. With a live stream, some order of the remaining work ends with both interfaces down
 for good if and only if at each end a DOWN may still be the last word: it is what the other end is heading for, or it
 is observed but not yet consumed, or it is about to be observed; or the end is down before a device that is down and
 will come up once more, in time to observe that.
 */
module LinkCrossing {
  import opened Wrappers
  import opened Sequences
  import opened LinkReporter
  import opened LinkProtocol
  import opened LinkSafety
  import opened LinkLatch
  import opened LinkConvergence

  /** The observation, if there is one, reports the state. */
  predicate Tells(o: Option<Observation>, state: LinkState) {
    o.Some? && Report(o.value) == state
  }

  predicate Noted(notes: seq<Observation>, state: LinkState) {
    exists i :: 0 <= i < |notes| && Report(notes[i]) == state
  }

  /** A DOWN of an end can still be the last the other hears, which is heading for h now. */
  predicate EndsDown(e: End, h: LinkState) {
    || h == Down
    || Tells(e.event, Down)
    || Noted(e.notes, Down)
    || (e.dirty && Report(e.Flags()) == Down)
  }

  predicate CanEndDown(s: System, y: Side) {
    EndsDown(s.At(y), Heading(s, y))
  }

  /** An UP is on its way as a message. */
  predicate SaidUp(e: End) {
    e.slot == Some(Up) || Up in e.wire
  }

  /**
   The other end, if it is down, can be brought up by an UP of this one and hear a DOWN of it as the last word later.
   If the device of this one is down, a DOWN follows in any case.
   */
  predicate Revives(e: End, h: LinkState) {
    if !e.device then SaidUp(e) || Tells(e.event, Up) || Noted(e.notes, Up)
    else
      || (SaidUp(e) && EndsDown(e, h))
      || (Tells(e.event, Up) && Noted(e.notes, Down))
      || (exists i, j :: 0 <= i < j < |e.notes| && Report(e.notes[i]) == Up && Report(e.notes[j]) == Down)
  }

  predicate UpBeforeDown(s: System, y: Side) {
    Revives(s.At(y), Heading(s, y))
  }

  /** The same for an end that may have to come up before it can say DOWN. */
  predicate MayEndDown(s: System, y: Side) {
    CanEndDown(s, y) || (!s.At(y).admin && !s.At(y).device && UpBeforeDown(s, y.Other()))
  }

  // ---- Working on from a state --------------------------------------------

  /** A run of productive steps from s to t. */
  ghost predicate Works(run: seq<System>, steps: seq<Step>, s: System, t: System) {
    && Behaviour(run, steps) && run[0] == s && Last(run) == t
    && forall i :: 0 <= i < |steps| ==> Productive(run[i], steps[i])
  }

  ghost predicate CanWorkTo(s: System, t: System) {
    exists run, steps :: Works(run, steps, s, t)
  }

  lemma WorkOn(s: System, t: System, step: Step, t': System)
    requires CanWorkTo(s, t) && Productive(t, step) && t' == Do(t, step)
    ensures CanWorkTo(s, t')
  {
    var run, steps :| Works(run, steps, s, t);
    var run', steps' := run + [t'], steps + [step];
    forall i | 0 <= i < |steps'|
      ensures Enabled(run'[i], steps'[i]) && run'[i + 1] == Do(run'[i], steps'[i]) && Productive(run'[i], steps'[i])
    {
      if i < |steps| {
        assert run'[i] == run[i] && run'[i + 1] == run[i + 1];
      }
    }
    assert Works(run', steps', s, t');
  }

  lemma StayPut(s: System)
    ensures CanWorkTo(s, s)
  {
    assert Works([s], [], s, s);
  }

  /** What every state reached by work over a live stream has. */
  ghost predicate Sane(s: System) {
    Invariant(s) && Meaningful(s) && Live(s)
  }

  lemma SaneStep(s: System, step: Step)
    requires Sane(s) && Productive(s, step)
    ensures Sane(Do(s, step))
  {
    StepKeepsInvariant(s, step);
    MeaningfulStep(s, step);
    StaysLive(s, step);
  }

  /** Working on, and what stays true of it. */
  lemma SaneWork(s: System, t: System, step: Step, t': System)
    requires CanWorkTo(s, t) && Sane(t) && Productive(t, step) && t' == Do(t, step)
    ensures CanWorkTo(s, t') && Sane(t')
  {
    WorkOn(s, t, step, t');
    SaneStep(t, step);
  }

  lemma {:induction false} WorksOffSane(run: seq<System>, steps: seq<Step>, s: System, t: System)
    requires Works(run, steps, s, t) && Sane(s)
    ensures Sane(t) && t.server.device == s.server.device && t.client.device == s.client.device
    decreases |steps|
  {
    if steps != [] {
      var u := run[|steps| - 1];
      assert Works(Init(run), Init(steps), s, u);
      WorksOffSane(Init(run), Init(steps), s, u);
      SaneStep(u, Last(steps));
      StaysLive(u, Last(steps));
    }
  }

  lemma WorkIsSane(s: System, t: System)
    requires Sane(s) && CanWorkTo(s, t)
    ensures Sane(t) && t.server.device == s.server.device && t.client.device == s.client.device
  {
    var run, steps :| Works(run, steps, s, t);
    WorksOffSane(run, steps, s, t);
  }

  // ---- An end whose last word is UP ----------------------------------------

  /** The device of y is up, the other end is heading for UP, and no DOWN of y is to be consumed. */
  predicate Firm(s: System, y: Side) {
    var e := s.At(y);
    e.device && Heading(s, y) == Up && !Tells(e.event, Down) && !Noted(e.notes, Down)
  }

  lemma FirmUnlessDown(s: System, y: Side)
    requires Sane(s) && (s.At(y).admin || s.At(y).device) && !CanEndDown(s, y)
    ensures Firm(s, y)
  {
    var e := s.At(y);
    assert NewestIsCurrent(e) && ReporterIsCurrent(e) && PeerFollows(s, y) && Linked(s, y);
    assert e.Flags() == Observation(e.admin, e.admin && e.device);
    HeadingIsKnown(s, y);
    if e.notes != [] {
      assert Report(e.notes[|e.notes| - 1]) != Down;
    }
  }

  lemma HeadingIsKnown(s: System, y: Side)
    requires Sane(s)
    ensures Heading(s, y) != Unknown
  {
  }

  lemma FirmNotify(s: System, y: Side)
    requires Sane(s) && Firm(s, y) && Productive(s, Notify(y))
    ensures Firm(Do(s, Notify(y)), y)
  {
    NotedMore(s.At(y).notes, s.At(y).Flags());
  }

  lemma FirmPublish(s: System, y: Side)
    requires Sane(s) && Firm(s, y) && Productive(s, Publish(y))
    ensures Firm(Do(s, Publish(y)), y)
  {
    NotedLess(s.At(y).notes);
  }

  lemma FirmConsume(s: System, y: Side)
    requires Sane(s) && Firm(s, y) && Productive(s, Consume(y))
    ensures Firm(Do(s, Consume(y)), y)
  {
    assert Linked(s, y);
  }

  lemma FirmOwnStep(s: System, step: Step, y: Side)
    requires Sane(s) && Firm(s, y) && Productive(s, step)
    requires step == Notify(y) || step == Publish(y) || step == Consume(y)
    ensures Firm(Do(s, step), y)
  {
    match step
    case Notify(_) => FirmNotify(s, y);
    case Publish(_) => FirmPublish(s, y);
    case Consume(_) => FirmConsume(s, y);
  }

  lemma FirmOtherStep(s: System, step: Step, y: Side)
    requires Sane(s) && Firm(s, y) && Productive(s, step)
    requires step == Notify(y.Other()) || step == Publish(y.Other()) || step == Consume(y.Other())
    ensures Firm(Do(s, step), y)
  {
    assert Do(s, step).At(y) == s.At(y);
    assert Do(s, step).At(y.Other()).admin == s.At(y.Other()).admin;
  }

  lemma FirmSend(s: System, y: Side)
    requires Sane(s) && Firm(s, y) && Productive(s, Send)
    ensures Firm(Do(s, Send), y)
  {
  }

  lemma FirmDeliver(s: System, x: Side, y: Side)
    requires Sane(s) && Firm(s, y) && Productive(s, Deliver(x))
    ensures Firm(Do(s, Deliver(x)), y)
  {
  }

  lemma FirmStep(s: System, step: Step, y: Side)
    requires Sane(s) && Firm(s, y) && Productive(s, step)
    ensures Firm(Do(s, step), y)
  {
    if step.Send? {
      FirmSend(s, y);
    } else if step.Deliver? {
      FirmDeliver(s, step.x, y);
    } else if step.x == y {
      FirmOwnStep(s, step, y);
    } else {
      FirmOtherStep(s, step, y);
    }
  }

  // ---- An end that stays down ----------------------------------------------

  /** y is down before a device that is down, its last word is UP, and it cannot come up before a last DOWN. */
  predicate Stranded(s: System, y: Side) {
    var e := s.At(y);
    && !e.admin && !e.device && Heading(s, y) == Up && !Tells(e.event, Down) && !Noted(e.notes, Down)
    && !UpBeforeDown(s, y.Other())
  }

  lemma StrandedUnlessMay(s: System, y: Side)
    requires Sane(s) && !MayEndDown(s, y) && !s.At(y).admin && !s.At(y).device
    ensures Stranded(s, y)
  {
    HeadingIsKnown(s, y);
  }

  lemma StrandedOwnConsume(s: System, y: Side)
    requires Sane(s) && Stranded(s, y) && Productive(s, Consume(y))
    ensures Stranded(Do(s, Consume(y)), y)
  {
    assert Linked(s, y);
    var s' := Do(s, Consume(y));
    assert s'.At(y.Other()) == s.At(y.Other()) && s'.At(y).notes == s.At(y).notes;
    assert Heading(s', y.Other()) == Heading(s, y.Other());
  }

  /** The end y goes on observing that it is down. */
  lemma StrandedOwnStep(s: System, step: Step, y: Side)
    requires Sane(s) && Stranded(s, y) && Productive(s, step)
    requires step == Notify(y) || step == Publish(y) || step == Consume(y)
    ensures Stranded(Do(s, step), y)
  {
    if step.Consume? {
      StrandedOwnConsume(s, y);
    } else {
      var s' := Do(s, step);
      if step.Notify? {
        NotedMore(s.At(y).notes, s.At(y).Flags());
      } else {
        NotedLess(s.At(y).notes);
      }
      assert s'.At(y.Other()) == s.At(y.Other()) && s'.At(y).admin == s.At(y).admin;
      assert Heading(s', y.Other()) == Heading(s, y.Other()) && Heading(s', y) == Heading(s, y);
    }
  }

  lemma StrandedNotify(s: System, y: Side)
    requires Sane(s) && Stranded(s, y) && Productive(s, Notify(y.Other()))
    ensures Stranded(Do(s, Notify(y.Other())), y)
  {
    var s' := Do(s, Notify(y.Other()));
    var e, e' := s.At(y.Other()), s'.At(y.Other());
    assert e'.notes == e.notes + [e.Flags()] && s'.At(y) == s.At(y);
    assert Heading(s', y.Other()) == Heading(s, y.Other()) && Heading(s', y) == Heading(s, y);
    NotedMore(e.notes, e.Flags());
  }

  lemma NotedMore(notes: seq<Observation>, o: Observation)
    ensures forall state :: Noted(notes + [o], state) <==> Noted(notes, state) || Report(o) == state
  {
    var more := notes + [o];
    assert forall i :: 0 <= i < |notes| ==> more[i] == notes[i];
    assert more[|notes|] == o;
  }

  lemma NotedLess(notes: seq<Observation>)
    requires notes != []
    ensures forall state :: Noted(notes, state) <==> Noted(notes[1..], state) || Report(notes[0]) == state
  {
    assert forall i :: 0 <= i < |notes| - 1 ==> notes[1..][i] == notes[i + 1];
    forall state | Noted(notes, state) ensures Noted(notes[1..], state) || Report(notes[0]) == state {
      var i :| 0 <= i < |notes| && Report(notes[i]) == state;
      assert i > 0 ==> notes[1..][i - 1] == notes[i];
    }
  }

  lemma StrandedPublish(s: System, y: Side)
    requires Sane(s) && Stranded(s, y) && Productive(s, Publish(y.Other()))
    ensures Stranded(Do(s, Publish(y.Other())), y)
  {
    var s' := Do(s, Publish(y.Other()));
    var e, e' := s.At(y.Other()), s'.At(y.Other());
    assert e'.notes == e.notes[1..] && e'.event == Some(e.notes[0]) && s'.At(y) == s.At(y);
    assert Heading(s', y.Other()) == Heading(s, y.Other()) && Heading(s', y) == Heading(s, y);
    NotedLess(e.notes);
    assert forall i :: 0 <= i < |e'.notes| ==> e'.notes[i] == e.notes[i + 1];
  }

  lemma RevivesUnsaid(e: End, h: LinkState, reported: LinkState)
    requires !Revives(e, h)
    ensures !Revives(e.(event := None, reported := reported), h)
  {
  }

  lemma RevivesSaid(e: End, h: LinkState, e': End, r: LinkState)
    requires !Revives(e, h) && Tells(e.event, r)
    requires e' == e.(event := None, reported := r, wire := e.wire + [r]) || e' == e.(event := None, reported := r, slot := Some(r))
    ensures !Revives(e', r)
  {
    assert Up in e'.wire ==> Up in e.wire || r == Up;
  }

  lemma StrandedConsume(s: System, y: Side)
    requires Sane(s) && Stranded(s, y) && Productive(s, Consume(y.Other()))
    ensures Stranded(Do(s, Consume(y.Other())), y)
  {
    var s' := Do(s, Consume(y.Other()));
    var e, e' := s.At(y.Other()), s'.At(y.Other());
    var r := Report(e.event.value);
    assert s'.At(y) == s.At(y) && e'.admin == e.admin && Heading(s', y) == Heading(s, y);
    if Emit(e.reported, e.event.value) == Unknown {
      RevivesUnsaid(e, Heading(s, y.Other()), r);
    } else {
      RevivesSaid(e, Heading(s, y.Other()), e', r);
    }
  }

  lemma StrandedSend(s: System, y: Side)
    requires Sane(s) && Stranded(s, y) && Productive(s, Send)
    ensures Stranded(Do(s, Send), y)
  {
    var s' := Do(s, Send);
    assert Heading(s', Server) == Heading(s, Server) && Heading(s', Client) == Heading(s, Client);
  }

  lemma StrandedDeliverAway(s: System, y: Side)
    requires Sane(s) && Stranded(s, y) && Productive(s, Deliver(y.Other()))
    ensures Stranded(Do(s, Deliver(y.Other())), y)
  {
    var s' := Do(s, Deliver(y.Other()));
    assert s'.At(y) == s.At(y).(wire := s.At(y).wire[1..]);
    assert Heading(s', y.Other()) == Heading(s, y.Other());
  }

  /** A DOWN changes nothing for y; an UP is the last word of the other end, whose device is up. */
  lemma StrandedDeliverTo(s: System, y: Side)
    requires Sane(s) && Stranded(s, y) && Productive(s, Deliver(y))
    ensures Stranded(Do(s, Deliver(y)), y) || Firm(Do(s, Deliver(y)), y.Other())
  {
    var s' := Do(s, Deliver(y));
    var e, e' := s.At(y.Other()), s'.At(y.Other());
    assert e' == e.(wire := e.wire[1..]) && e.wire[0] in e.wire;
    assert forall i :: 0 <= i < |e'.wire| ==> e'.wire[i] == e.wire[i + 1];
  }

  lemma StrandedOtherStep(s: System, step: Step, y: Side)
    requires Sane(s) && Stranded(s, y) && Productive(s, step)
    requires step == Notify(y.Other()) || step == Publish(y.Other()) || step == Consume(y.Other())
    ensures Stranded(Do(s, step), y)
  {
    match step
    case Notify(_) => StrandedNotify(s, y);
    case Publish(_) => StrandedPublish(s, y);
    case Consume(_) => StrandedConsume(s, y);
  }

  lemma StrandedMessage(s: System, step: Step, y: Side)
    requires Sane(s) && Stranded(s, y) && Productive(s, step) && (step.Send? || step.Deliver?)
    ensures Stranded(Do(s, step), y) || Firm(Do(s, step), y.Other())
  {
    if step.Send? {
      StrandedSend(s, y);
    } else if step.x == y {
      StrandedDeliverTo(s, y);
    } else {
      StrandedDeliverAway(s, y);
    }
  }

  lemma StrandedStep(s: System, step: Step, y: Side)
    requires Sane(s) && Stranded(s, y) && Productive(s, step)
    ensures Stranded(Do(s, step), y) || Firm(Do(s, step), y.Other())
  {
    if step.Send? || step.Deliver? {
      StrandedMessage(s, step, y);
    } else if step.x == y {
      StrandedOwnStep(s, step, y);
    } else {
      StrandedOtherStep(s, step, y);
    }
  }

  /** One end has said UP for good, or y stays down and quiet. */
  predicate Spared(s: System, y: Side) {
    Firm(s, y) || Firm(s, y.Other()) || Stranded(s, y)
  }

  lemma SparedStep(s: System, step: Step, y: Side)
    requires Sane(s) && Spared(s, y) && Productive(s, step)
    ensures Spared(Do(s, step), y)
  {
    if Firm(s, y) {
      FirmStep(s, step, y);
    } else if Firm(s, y.Other()) {
      FirmStep(s, step, y.Other());
    } else {
      StrandedStep(s, step, y);
    }
  }

  /** No order of the work ends in the latch. */
  lemma {:induction false} SparedForGood(run: seq<System>, steps: seq<Step>, s: System, t: System, y: Side)
    requires Works(run, steps, s, t) && Sane(s) && Spared(s, y)
    ensures Sane(t) && Spared(t, y)
    decreases |steps|
  {
    if steps != [] {
      var u := run[|steps| - 1];
      assert Works(Init(run), Init(steps), s, u);
      SparedForGood(Init(run), Init(steps), s, u, y);
      SaneStep(u, Last(steps));
      SparedStep(u, Last(steps), y);
    }
  }

  lemma UpIsNotLatched(s: System, y: Side)
    requires Heading(s, y) == Up
    ensures !Latched(s)
  {
  }

  lemma NoLatch(s: System, t: System, y: Side)
    requires Sane(s) && Spared(s, y) && CanWorkTo(s, t)
    ensures !Latched(t)
  {
    var run, steps :| Works(run, steps, s, t);
    SparedForGood(run, steps, s, t, y);
    UpIsNotLatched(t, if Firm(t, y.Other()) then y.Other() else y);
  }

  lemma SparedUnlessMay(s: System, y: Side)
    requires Sane(s) && !MayEndDown(s, y)
    ensures Spared(s, y)
  {
    if s.At(y).admin || s.At(y).device {
      FirmUnlessDown(s, y);
    } else {
      StrandedUnlessMay(s, y);
    }
  }

  // ---- If both ends can end down, there is a way into the latch ------------

  /** The pending observation of a DOWN is consumed. */
  lemma ConsumeDown(t: System, y: Side)
    requires Sane(t) && Tells(t.At(y).event, Down)
    ensures Productive(t, Consume(y))
    ensures var t' := Do(t, Consume(y));
            Heading(t', y) == Down && t'.At(y.Other()) == t.At(y.Other()) && t'.At(y).admin == t.At(y).admin
  {
    assert PeerFollows(t, y) && Linked(t, y);
  }

  /** From t to t' the end y came to say DOWN; the other end was left alone. */
  ghost predicate CameToSayDown(s: System, t: System, t': System, y: Side) {
    && CanWorkTo(s, t') && Sane(t') && Heading(t', y) == Down
    && t'.At(y.Other()) == t.At(y.Other()) && t'.At(y).admin == t.At(y).admin
  }

  /** The notes before it are passed over, then the DOWN is consumed. */
  lemma {:induction false} NotedDown(s: System, t: System, y: Side, i: nat) returns (t': System)
    requires CanWorkTo(s, t) && Sane(t) && i < |t.At(y).notes| && Report(t.At(y).notes[i]) == Down
    ensures CameToSayDown(s, t, t', y)
    decreases i
  {
    var e := t.At(y);
    var u := t.With(y, e.(event := Some(e.notes[0]), notes := e.notes[1..]));
    SaneWork(s, t, Publish(y), u);
    if i == 0 {
      ConsumeDown(u, y);
      t' := Do(u, Consume(y));
      SaneWork(s, u, Consume(y), t');
    } else {
      t' := NotedDown(s, u, y, i - 1);
    }
  }

  lemma SaysDown(s: System, t: System, y: Side) returns (t': System)
    requires CanWorkTo(s, t) && Sane(t) && CanEndDown(t, y)
    ensures CameToSayDown(s, t, t', y)
  {
    var e := t.At(y);
    if Heading(t, y) == Down {
      t' := t;
    } else if Tells(e.event, Down) {
      ConsumeDown(t, y);
      t' := Do(t, Consume(y));
      SaneWork(s, t, Consume(y), t');
    } else if i :| 0 <= i < |e.notes| && Report(e.notes[i]) == Down {
      t' := NotedDown(s, t, y, i);
    } else {
      var u := t.With(y, e.(notes := e.notes + [e.Flags()], dirty := false));
      SaneWork(s, t, Notify(y), u);
      assert u.At(y).notes[|e.notes|] == e.Flags();
      t' := NotedDown(s, u, y, |e.notes|);
    }
  }

  /** The first message to x is delivered. */
  function DeliveredOne(t: System, x: Side): System
    requires t.At(x.Other()).wire != []
  {
    var e, o := t.At(x), t.At(x.Other());
    t.With(x.Other(), o.(wire := o.wire[1..])).With(x, e.SetAdmin(o.wire[0] == Up))
  }

  lemma DeliverOne(t: System, x: Side)
    requires t.subscribed && t.At(x.Other()).wire != []
    ensures Productive(t, Deliver(x)) && Do(t, Deliver(x)) == DeliveredOne(t, x)
  {
  }

  /** The first n messages of o were delivered to e, which is now up or down. */
  predicate DrainedEnds(o: End, e: End, o': End, e': End, n: nat, up: bool) {
    && n <= |o.wire| && o' == o.(wire := o.wire[n..])
    && e' == e.(admin := up, dirty := e'.dirty) && (e.admin != up || e.dirty ==> e'.dirty)
  }

  /** From t to t' messages to x were delivered. */
  predicate Drained(t: System, t': System, x: Side, n: nat, up: bool) {
    && DrainedEnds(t.At(x.Other()), t.At(x), t'.At(x.Other()), t'.At(x), n, up)
    && t'.connected == t.connected && t'.subscribed == t.subscribed && t'.late == t.late
  }

  lemma DrainedEndsFirst(o: End, e: End, o': End, e': End, n: nat, up: bool)
    requires o.wire != [] && DrainedEnds(o.(wire := o.wire[1..]), e.SetAdmin(o.wire[0] == Up), o', e', n, up)
    ensures DrainedEnds(o, e, o', e', n + 1, up)
  {
    assert o.wire[1..][n..] == o.wire[n + 1..];
  }

  lemma DrainedFirst(t: System, t': System, x: Side, n: nat, up: bool)
    requires t.At(x.Other()).wire != [] && Drained(DeliveredOne(t, x), t', x, n, up)
    ensures Drained(t, t', x, n + 1, up)
  {
    DrainedEndsFirst(t.At(x.Other()), t.At(x), t'.At(x.Other()), t'.At(x), n, up);
  }

  lemma DrainedNone(t: System, x: Side)
    ensures Drained(t, t, x, 0, t.At(x).admin)
  {
    assert t.At(x.Other()).wire[0..] == t.At(x.Other()).wire;
  }

  /** What x is after the first n messages to it. */
  function AdminAfter(t: System, x: Side, n: nat): bool
    requires n <= |t.At(x.Other()).wire|
  {
    if n == 0 then t.At(x).admin else t.At(x.Other()).wire[n - 1] == Up
  }

  /** The first n messages to x are delivered. */
  lemma {:induction false} Drain(s: System, t: System, x: Side, n: nat) returns (t': System)
    requires CanWorkTo(s, t) && t.subscribed && n <= |t.At(x.Other()).wire|
    ensures CanWorkTo(s, t') && Drained(t, t', x, n, AdminAfter(t, x, n))
    decreases n
  {
    if n == 0 {
      DrainedNone(t, x);
      t' := t;
    } else {
      AfterOne(t, x, n);
      DrainOne(s, t, x);
      t' := Drain(s, DeliveredOne(t, x), x, n - 1);
      DrainedFirst(t, t', x, n - 1, AdminAfter(t, x, n));
    }
  }

  lemma DrainOne(s: System, t: System, x: Side)
    requires CanWorkTo(s, t) && t.subscribed && t.At(x.Other()).wire != []
    ensures CanWorkTo(s, DeliveredOne(t, x)) && DeliveredOne(t, x).subscribed
  {
    DeliverOne(t, x);
    WorkOn(s, t, Deliver(x), DeliveredOne(t, x));
  }

  lemma AfterOne(t: System, x: Side, n: nat)
    requires 0 < n <= |t.At(x.Other()).wire|
    ensures |DeliveredOne(t, x).At(x.Other()).wire| == |t.At(x.Other()).wire| - 1
    ensures AdminAfter(DeliveredOne(t, x), x, n - 1) == AdminAfter(t, x, n)
  {
  }

  /** Everything noted is published; only the last observation is left. */
  lemma {:induction false} PublishAll(s: System, t: System, y: Side) returns (t': System)
    requires CanWorkTo(s, t) && t.At(y).notes != []
    ensures CanWorkTo(s, t')
    ensures var e := t.At(y);
            t' == t.With(y, e.(notes := [], event := Some(e.notes[|e.notes| - 1])))
    decreases |t.At(y).notes|
  {
    var e := t.At(y);
    var u := t.With(y, e.(event := Some(e.notes[0]), notes := e.notes[1..]));
    WorkOn(s, t, Publish(y), u);
    if |e.notes| == 1 {
      assert e.notes[1..] == [];
      t' := u;
    } else {
      t' := PublishAll(s, u, y);
    }
  }

  /** From t to t' the end y was left with nothing to say. */
  predicate Hushed(t: System, t': System, y: Side) {
    var e' := t'.At(y);
    && t' == t.With(y, t.At(y).(dirty := e'.dirty, notes := [], event := e'.event))
    && (e'.event.Some? ==> !e'.event.value.adminUp)
  }

  /** The end y, which is down, is left with nothing but the observation that it is down. */
  lemma FallsSilent(s: System, t: System, y: Side) returns (t': System)
    requires CanWorkTo(s, t) && t.At(y).open && !t.At(y).admin && NewestIsCurrent(t.At(y))
    ensures CanWorkTo(s, t') && Hushed(t, t', y)
  {
    var e := t.At(y);
    if e.dirty {
      var u := t.With(y, e.(notes := e.notes + [OFF], dirty := false));
      WorkOn(s, t, Notify(y), u);
      t' := PublishAll(s, u, y);
    } else if e.notes != [] {
      t' := PublishAll(s, t, y);
    } else {
      t' := t;
    }
  }

  /** Both ends have said DOWN last, and nothing waits in the server's channel. */
  ghost predicate Crossed(t: System) {
    Sane(t) && t.server.slot == None && Heading(t, Server) == Down && Heading(t, Client) == Down
  }

  lemma SendWaiting(s: System, t: System) returns (t': System)
    requires CanWorkTo(s, t) && Sane(t) && Heading(t, Server) == Down && Heading(t, Client) == Down
    ensures CanWorkTo(s, t') && Crossed(t')
  {
    if t.server.slot.Some? {
      t' := Do(t, Send);
      SaneWork(s, t, Send, t');
    } else {
      t' := t;
    }
  }

  /** All messages are delivered, and both interfaces are down. */
  lemma CrossedDelivered(s: System, t: System) returns (t': System)
    requires Sane(s) && CanWorkTo(s, t) && Crossed(t)
    ensures CanWorkTo(s, t') && Sane(t') && BothDown(t') && t'.server.slot == None
    ensures t'.server.wire == [] && t'.client.wire == [] && t'.server.reported == t.server.reported
  {
    var t1 := Drain(s, t, Client, |t.server.wire|);
    t' := Drain(s, t1, Server, |t1.client.wire|);
    WorkIsSane(s, t');
  }

  lemma LatchFollows(s: System, t: System) returns (t': System)
    requires Sane(s) && CanWorkTo(s, t) && Crossed(t)
    ensures CanWorkTo(s, t') && Latched(t')
  {
    assert PeerFollows(t, Server) && Linked(t, Server);
    var t1 := CrossedDelivered(s, t);
    assert t1.client.slot == None && t1.late == [];
    var t2 := FallsSilent(s, t1, Server);
    t' := FallsSilent(s, t2, Client);
  }

  lemma CanLatch(s: System, t: System) returns (t': System)
    requires Sane(s) && CanWorkTo(s, t) && Sane(t) && CanEndDown(t, Server) && CanEndDown(t, Client)
    ensures CanWorkTo(s, t') && Latched(t')
  {
    var t1 := SaysDown(s, t, Server);
    assert CanEndDown(t1, Client);
    var t2 := SaysDown(s, t1, Client);
    var t3 := SendWaiting(s, t2);
    t' := LatchFollows(s, t3);
  }

  // ---- An end that has to come up first ------------------------------------

  /** From t to t' the end y was brought up, and the other end can still end down if its device is up. */
  ghost predicate Raised(s: System, t: System, t': System, y: Side) {
    && CanWorkTo(s, t') && Sane(t')
    && t'.At(y) == t.At(y).(admin := true, dirty := true)
    && t'.At(y.Other()).admin == t.At(y.Other()).admin
    && (t.At(y.Other()).device ==> CanEndDown(t', y.Other()))
  }

  /** An UP on the wire is delivered. */
  lemma RaisedByMessage(s: System, t: System, y: Side, i: nat) returns (t': System)
    requires Sane(s) && CanWorkTo(s, t) && Sane(t) && !t.At(y).admin
    requires i < |t.At(y.Other()).wire| && t.At(y.Other()).wire[i] == Up
    requires t.At(y.Other()).device ==> CanEndDown(t, y.Other())
    ensures Raised(s, t, t', y)
  {
    t' := Drain(s, t, y, i + 1);
    WorkIsSane(s, t');
    var e, e' := t.At(y.Other()), t'.At(y.Other());
    assert e' == e.(wire := e.wire[i + 1..]);
    assert Heading(t, y.Other()) == Down ==> Heading(t', y.Other()) == Down;
  }

  /** A message UP, sent first if it waits in the server's channel, is delivered. */
  lemma RaisedBySaid(s: System, t: System, y: Side) returns (t': System)
    requires Sane(s) && CanWorkTo(s, t) && Sane(t) && !t.At(y).admin && SaidUp(t.At(y.Other()))
    requires t.At(y.Other()).device ==> CanEndDown(t, y.Other())
    ensures Raised(s, t, t', y)
  {
    var e := t.At(y.Other());
    if i :| 0 <= i < |e.wire| && e.wire[i] == Up {
      t' := RaisedByMessage(s, t, y, i);
    } else {
      assert y.Other() == Server && e.slot == Some(Up);
      var u := t.With(Server, e.(slot := None, wire := e.wire + [Up]));
      SaneWork(s, t, Send, u);
      assert Heading(u, Server) == Heading(t, Server) && u.At(y) == t.At(y);
      t' := RaisedByMessage(s, u, y, |e.wire|);
    }
  }

  /** The other end says UP: nothing it said before has brought y up. */
  lemma ConsumeUp(t: System, y: Side)
    requires Sane(t) && !t.At(y).admin && Tells(t.At(y.Other()).event, Up) && !SaidUp(t.At(y.Other()))
    ensures Productive(t, Consume(y.Other()))
    ensures var t' := Do(t, Consume(y.Other()));
            var e, e' := t.At(y.Other()), t'.At(y.Other());
            t'.At(y) == t.At(y) && SaidUp(e') && e'.notes == e.notes && e'.admin == e.admin && e'.device == e.device
  {
    assert PeerFollows(t, y.Other()) && Linked(t, y.Other());
    assert Heading(t, y.Other()) != Up;
  }

  lemma RaisedByEvent(s: System, t: System, y: Side) returns (t': System)
    requires Sane(s) && CanWorkTo(s, t) && Sane(t) && !t.At(y).admin && Tells(t.At(y.Other()).event, Up)
    requires t.At(y.Other()).device ==> Noted(t.At(y.Other()).notes, Down)
    ensures Raised(s, t, t', y)
  {
    if SaidUp(t.At(y.Other())) {
      t' := RaisedBySaid(s, t, y);
    } else {
      ConsumeUp(t, y);
      var u := Do(t, Consume(y.Other()));
      SaneWork(s, t, Consume(y.Other()), u);
      t' := RaisedBySaid(s, u, y);
    }
  }

  lemma {:induction false} RaisedByNote(s: System, t: System, y: Side, i: nat) returns (t': System)
    requires Sane(s) && CanWorkTo(s, t) && Sane(t) && !t.At(y).admin
    requires i < |t.At(y.Other()).notes| && Report(t.At(y.Other()).notes[i]) == Up
    requires t.At(y.Other()).device ==> Noted(t.At(y.Other()).notes[i + 1..], Down)
    ensures Raised(s, t, t', y)
    decreases i
  {
    var e := t.At(y.Other());
    var u := t.With(y.Other(), e.(event := Some(e.notes[0]), notes := e.notes[1..]));
    SaneWork(s, t, Publish(y.Other()), u);
    assert u.At(y) == t.At(y);
    if i == 0 {
      t' := RaisedByEvent(s, u, y);
    } else {
      assert e.notes[1..][i..] == e.notes[i + 1..];
      t' := RaisedByNote(s, u, y, i - 1);
    }
  }

  lemma Raise(s: System, t: System, y: Side) returns (t': System)
    requires Sane(s) && CanWorkTo(s, t) && Sane(t) && !t.At(y).admin && UpBeforeDown(t, y.Other())
    ensures Raised(s, t, t', y)
  {
    var e := t.At(y.Other());
    if SaidUp(e) && (e.device ==> CanEndDown(t, y.Other())) {
      t' := RaisedBySaid(s, t, y);
    } else if Tells(e.event, Up) && (e.device ==> Noted(e.notes, Down)) {
      t' := RaisedByEvent(s, t, y);
    } else {
      var i := NotedUp(e, Heading(t, y.Other()));
      t' := RaisedByNote(s, t, y, i);
    }
  }

  lemma NotedUp(e: End, h: LinkState) returns (i: nat)
    requires Revives(e, h) && !(SaidUp(e) && (e.device ==> EndsDown(e, h)))
    requires !(Tells(e.event, Up) && (e.device ==> Noted(e.notes, Down)))
    ensures i < |e.notes| && Report(e.notes[i]) == Up && (e.device ==> Noted(e.notes[i + 1..], Down))
  {
    if e.device {
      var k, j :| 0 <= k < j < |e.notes| && Report(e.notes[k]) == Up && Report(e.notes[j]) == Down;
      assert e.notes[k + 1..][j - k - 1] == e.notes[j];
      i := k;
    } else {
      i :| 0 <= i < |e.notes| && Report(e.notes[i]) == Up;
    }
  }

  /** The messages of y, the last of them an UP, bring the other end up too. */
  lemma RaiseOther(s: System, t: System, y: Side) returns (t': System)
    requires Sane(s) && CanWorkTo(s, t) && Sane(t) && Heading(t, y) == Up && !t.At(y.Other()).admin
    ensures CanWorkTo(s, t') && Sane(t') && t'.At(y.Other()) == t.At(y.Other()).(admin := true, dirty := true)
    ensures t'.At(y) == t.At(y).(slot := None, wire := [])
  {
    var e := t.At(y);
    var u := t;
    if e.slot.Some? {
      assert y == Server;
      u := t.With(Server, e.(slot := None, wire := e.wire + [e.slot.value]));
      SaneWork(s, t, Send, u);
    }
    assert y.Other().Other() == y && u.subscribed;
    t' := Drain(s, u, y.Other(), |u.At(y).wire|);
    assert u.At(y).wire[|u.At(y).wire|..] == [];
    WorkIsSane(s, t');
  }

  lemma DownWithDevice(t: System, y: Side)
    requires Sane(t) && !CanEndDown(t, y) && !t.At(y).device
    ensures !t.At(y).admin && Heading(t, y) == Up
  {
    HeadingIsKnown(t, y);
    if t.At(y).admin {
      FirmUnlessDown(t, y);
    }
  }

  /** An end that cannot end down as it is can be made to, without losing the other. */
  lemma BothMade(s: System, y: Side) returns (t: System)
    requires Sane(s) && !CanEndDown(s, y) && MayEndDown(s, y)
    ensures CanWorkTo(s, t) && Sane(t) && CanEndDown(t, y) && CanEndDown(t, y.Other())
  {
    StayPut(s);
    DownWithDevice(s, y);
    t := Raise(s, s, y);
    assert t.At(y).Flags() == Observation(true, false);
    WorkIsSane(s, t);
    if !CanEndDown(t, y.Other()) {
      DownWithDevice(t, y.Other());
      assert Heading(t, y) == Heading(s, y);
      t := RaiseOther(s, t, y);
      assert t.At(y).Flags() == Observation(true, false) && t.At(y.Other()).Flags() == Observation(true, false);
    }
  }

  lemma MayLatch(s: System) returns (t: System)
    requires Sane(s) && MayEndDown(s, Server) && MayEndDown(s, Client)
    ensures CanWorkTo(s, t) && Latched(t)
  {
    StayPut(s);
    t := s;
    if !CanEndDown(s, Server) {
      t := BothMade(s, Server);
    } else if !CanEndDown(s, Client) {
      t := BothMade(s, Client);
    }
    t := CanLatch(s, t);
  }

  // ---- The exact condition ------------------------------------------------

  /**
   In every run, with a live stream: some order of the work ends in the latch if and only if both ends may end down.
   With both interfaces up this says that both can end down as they are.
   */
  lemma LatchesExactlyWhen(run: seq<System>, steps: seq<Step>)
    requires Execution(run, steps) && Live(Last(run))
    ensures var s := Last(run);
            && ((exists t :: CanWorkTo(s, t) && Latched(t)) <==> MayEndDown(s, Server) && MayEndDown(s, Client))
            && (BothUp(s) ==> forall y :: MayEndDown(s, y) <==> CanEndDown(s, y))
  {
    ExecutionMeaningful(run, steps);
    var s := Last(run);
    if MayEndDown(s, Server) && MayEndDown(s, Client) {
      var t := MayLatch(s);
    } else {
      var y := if MayEndDown(s, Server) then Client else Server;
      SparedUnlessMay(s, y);
      forall t | CanWorkTo(s, t) ensures !Latched(t) {
        NoLatch(s, t, y);
      }
    }
  }

  // ---- Agreement, told beforehand -----------------------------------------

  ghost predicate Finished(t: System) {
    forall step :: !Productive(t, step)
  }

  lemma FinishedAgrees(s: System, t: System)
    requires Sane(s) && CanWorkTo(s, t) && Finished(t)
    ensures t.server.device == s.server.device && t.client.device == s.client.device
    ensures Agreement(t) || Latched(t)
    ensures Latched(t) ==> (Agreement(t) <==> !t.server.device && !t.client.device)
  {
    WorkIsSane(s, t);
    if !Quiescent(t) {
      var step := WorkUnlessQuiescent(t);
    }
    QuiescentAgreement(t);
    if BothDown(t) {
      QuiescentIsLatched(t);
    }
  }

  /** A latched state can be worked off, and stays latched. */
  lemma {:induction false} LatchSettles(s: System, t: System) returns (t': System)
    requires CanWorkTo(s, t) && Sane(t) && Latched(t)
    ensures CanWorkTo(s, t') && Finished(t') && Latched(t')
    decreases Rank(t)
  {
    if Quiescent(t) {
      t' := t;
    } else {
      var step := WorkUnlessQuiescent(t);
      RankDecreases(t, step);
      SaneWork(s, t, step, Do(t, step));
      LatchedStep(t, step);
      t' := LatchSettles(s, Do(t, step));
    }
  }

  /**
   So it can be told beforehand whether every order of the work will end in agreement with the devices: if and only
   if one end cannot end down, or both devices are down anyway.
   */
  lemma AgreesExactlyWhen(run: seq<System>, steps: seq<Step>)
    requires Execution(run, steps) && Live(Last(run))
    ensures var s := Last(run);
            (forall t :: CanWorkTo(s, t) && Finished(t) ==> Agreement(t))
            <==> !MayEndDown(s, Server) || !MayEndDown(s, Client) || (!s.server.device && !s.client.device)
  {
    ExecutionMeaningful(run, steps);
    LatchesExactlyWhen(run, steps);
    var s := Last(run);
    forall t | CanWorkTo(s, t) && Finished(t)
      ensures Agreement(t) || Latched(t)
      ensures Latched(t) ==> (Agreement(t) <==> !s.server.device && !s.client.device)
    {
      FinishedAgrees(s, t);
    }
    if MayEndDown(s, Server) && MayEndDown(s, Client) {
      var t := MayLatch(s);
      WorkIsSane(s, t);
      t := LatchSettles(s, t);
    }
  }
}
