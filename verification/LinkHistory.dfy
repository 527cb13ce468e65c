/**
 What the state of the link-state protocol is, told from the steps alone: each part of it is traced back to the steps
 that made it so -- the message an interface obeys, the observations and messages that are under way, and what became
 of those that are not.
 */
module LinkHistory {
  import opened Wrappers
  import opened LinkReporter
  import opened LinkProtocol
  import opened LinkSafety

  // ---- What a look at an observation changes ------------------------------

  /** The step hands an observation to the reporter of x. */
  predicate Looks(step: Step, x: Side) {
    step == Consume(x) || step == Start(x)
  }

  /** What the step changes of its end besides its reports. */
  function Looked(e: End, step: Step): End {
    if step.Consume? then e.(event := None) else e.(started := true)
  }

  /** The state that the step makes x report. */
  function Reported(s: System, step: Step, x: Side): LinkState
    requires Enabled(s, step)
  {
    if step == Consume(x) then Emit(s.At(x).reported, s.At(x).event.value)
    else if step == Start(x) then Emit(s.At(x).reported, s.At(x).Flags())
    else Unknown
  }

  lemma ObserveFrame(s: System, x: Side, o: Observation)
    ensures var s', e := Observe(s, x, o), s.At(x);
            && s'.At(x.Other()) == s.At(x.Other())
            && s'.At(x) == e.(reported := Report(o), wire := s'.At(x).wire, slot := s'.At(x).slot)
            && s' == s.With(x, s'.At(x))
            && s'.At(x).wire == (if x.Client? && Emit(e.reported, o) != Unknown then e.wire + [Emit(e.reported, o)] else e.wire)
            && s'.At(x).slot == (if x.Server? && s.subscribed && Emit(e.reported, o) != Unknown
                                 then Some(Emit(e.reported, o)) else e.slot)
  {
  }

  /** A look changes nothing but the reports of its end, what it consumed and what it started. */
  lemma LookFrame(s: System, step: Step, x: Side)
    requires Enabled(s, step) && Looks(step, x)
    ensures var s', e := Do(s, step), Looked(s.At(x), step);
            var r := Reported(s, step, x);
            && s'.At(x.Other()) == s.At(x.Other()) && s' == s.With(x, s'.At(x))
            && s'.At(x) == e.(reported := s'.At(x).reported, wire := s'.At(x).wire, slot := s'.At(x).slot)
            && s'.At(x).wire == (if x.Client? && r != Unknown then e.wire + [r] else e.wire)
            && s'.At(x).slot == (if x.Server? && s.subscribed && r != Unknown then Some(r) else e.slot)
  {
    var e := s.At(x);
    ObserveFrame(s.With(x, Looked(e, step)), x, if step.Consume? then e.event.value else e.Flags());
  }

  // ---- Interfaces and devices ---------------------------------------------

  /** The message that the step applies to the interface of x. */
  function Applied(s: System, step: Step, x: Side): Option<LinkState>
    requires Enabled(s, step)
  {
    if step == Deliver(x) then Some(s.At(x.Other()).wire[0])
    else if step == DeliverLate && x.Server? then Some(s.late[0])
    else None
  }

  /** The last message applied to x in the first n steps. */
  ghost function LastApplied(run: seq<System>, steps: seq<Step>, x: Side, n: nat): Option<LinkState>
    requires Behaviour(run, steps) && n <= |steps|
  {
    if n == 0 then None
    else
      var applied := Applied(run[n - 1], steps[n - 1], x);
      if applied.Some? then applied else LastApplied(run, steps, x, n - 1)
  }

  lemma AdminStepLook(s: System, step: Step, x: Side)
    requires Enabled(s, step) && (step.Consume? || step.Start?)
    ensures var applied := Applied(s, step, x);
            Do(s, step).At(x).admin == if applied.Some? then applied.value == Up else s.At(x).admin
  {
    LookFrame(s, step, step.x);
  }

  lemma AdminStepLocal(s: System, step: Step, x: Side)
    requires Enabled(s, step) && (step.Device? || step.Notify? || step.Publish?)
    ensures var applied := Applied(s, step, x);
            Do(s, step).At(x).admin == if applied.Some? then applied.value == Up else s.At(x).admin
  {
  }

  lemma AdminStepStream(s: System, step: Step, x: Side)
    requires Enabled(s, step) && !step.Reporting()
    ensures var applied := Applied(s, step, x);
            Do(s, step).At(x).admin == if applied.Some? then applied.value == Up else s.At(x).admin
  {
  }

  lemma AdminStep(s: System, step: Step, x: Side)
    requires Enabled(s, step)
    ensures var applied := Applied(s, step, x);
            Do(s, step).At(x).admin == if applied.Some? then applied.value == Up else s.At(x).admin
  {
    if step.Consume? || step.Start? {
      AdminStepLook(s, step, x);
    } else if step.Reporting() {
      AdminStepLocal(s, step, x);
    } else {
      AdminStepStream(s, step, x);
    }
  }

  /** In every run an interface is what the last message applied to it said, and as it was if none was. */
  lemma {:induction false} AdminIsLastApplied(run: seq<System>, steps: seq<Step>, x: Side, n: nat)
    requires Behaviour(run, steps) && n <= |steps|
    ensures var applied := LastApplied(run, steps, x, n);
            run[n].At(x).admin == if applied.Some? then applied.value == Up else run[0].At(x).admin
  {
    if n > 0 {
      AdminIsLastApplied(run, steps, x, n - 1);
      AdminStep(run[n - 1], steps[n - 1], x);
    }
  }

  /** What the device beyond x was last set to. */
  function LastSet(steps: seq<Step>, x: Side, was: bool, n: nat): bool
    requires n <= |steps|
  {
    if n == 0 then was
    else if steps[n - 1].Device? && steps[n - 1].x == x then steps[n - 1].up
    else LastSet(steps, x, was, n - 1)
  }

  lemma DeviceStepLook(s: System, step: Step, x: Side)
    requires Enabled(s, step) && (step.Consume? || step.Start?)
    ensures Do(s, step).At(x).device == if step.Device? && step.x == x then step.up else s.At(x).device
  {
    LookFrame(s, step, step.x);
  }

  lemma DeviceStepLocal(s: System, step: Step, x: Side)
    requires Enabled(s, step) && (step.Device? || step.Notify? || step.Publish?)
    ensures Do(s, step).At(x).device == if step.Device? && step.x == x then step.up else s.At(x).device
  {
  }

  lemma DeviceStepStream(s: System, step: Step, x: Side)
    requires Enabled(s, step) && !step.Reporting()
    ensures Do(s, step).At(x).device == if step.Device? && step.x == x then step.up else s.At(x).device
  {
  }

  lemma DeviceStep(s: System, step: Step, x: Side)
    requires Enabled(s, step)
    ensures Do(s, step).At(x).device == if step.Device? && step.x == x then step.up else s.At(x).device
  {
    if step.Consume? || step.Start? {
      DeviceStepLook(s, step, x);
    } else if step.Reporting() {
      DeviceStepLocal(s, step, x);
    } else {
      DeviceStepStream(s, step, x);
    }
  }

  lemma {:induction false} DeviceIsLastSet(run: seq<System>, steps: seq<Step>, x: Side, n: nat)
    requires Behaviour(run, steps) && n <= |steps|
    ensures run[n].At(x).device == LastSet(steps, x, run[0].At(x).device, n)
  {
    if n > 0 {
      DeviceIsLastSet(run, steps, x, n - 1);
      DeviceStep(run[n - 1], steps[n - 1], x);
    }
  }

  // ---- Links and the stream -----------------------------------------------

  /** The step opens the Link of x. */
  predicate Opens(step: Step, x: Side) {
    if x.Server? then step.Attach? else step.Connect?
  }

  function IsOpen(steps: seq<Step>, x: Side, n: nat): bool
    requires n <= |steps|
  {
    n > 0 && if Reopens(steps[n - 1], x) then Opens(steps[n - 1], x) else IsOpen(steps, x, n - 1)
  }

  function IsStarted(steps: seq<Step>, x: Side, n: nat): bool
    requires n <= |steps|
  {
    n > 0 && !Reopens(steps[n - 1], x) && (steps[n - 1] == Start(x) || IsStarted(steps, x, n - 1))
  }

  function IsSubscribed(steps: seq<Step>, n: nat): bool
    requires n <= |steps|
  {
    n > 0 && !steps[n - 1].Break? && (steps[n - 1].Subscribe? || IsSubscribed(steps, n - 1))
  }

  lemma LinkStepLook(s: System, step: Step, x: Side)
    requires Enabled(s, step) && (step.Consume? || step.Start?)
    ensures Do(s, step).At(x).open == if Reopens(step, x) then Opens(step, x) else s.At(x).open
    ensures Do(s, step).At(x).started == (!Reopens(step, x) && (step == Start(x) || s.At(x).started))
  {
    LookFrame(s, step, step.x);
  }

  lemma LinkStepLocal(s: System, step: Step, x: Side)
    requires Enabled(s, step) && (step.Device? || step.Notify? || step.Publish?)
    ensures Do(s, step).At(x).open == if Reopens(step, x) then Opens(step, x) else s.At(x).open
    ensures Do(s, step).At(x).started == (!Reopens(step, x) && (step == Start(x) || s.At(x).started))
  {
  }

  lemma LinkStepStream(s: System, step: Step, x: Side)
    requires Enabled(s, step) && !step.Reporting()
    ensures Do(s, step).At(x).open == if Reopens(step, x) then Opens(step, x) else s.At(x).open
    ensures Do(s, step).At(x).started == (!Reopens(step, x) && (step == Start(x) || s.At(x).started))
  {
  }

  lemma LinkStep(s: System, step: Step, x: Side)
    requires Enabled(s, step)
    ensures Do(s, step).At(x).open == if Reopens(step, x) then Opens(step, x) else s.At(x).open
    ensures Do(s, step).At(x).started == (!Reopens(step, x) && (step == Start(x) || s.At(x).started))
  {
    if step.Consume? || step.Start? {
      LinkStepLook(s, step, x);
    } else if step.Reporting() {
      LinkStepLocal(s, step, x);
    } else {
      LinkStepStream(s, step, x);
    }
  }

  lemma StreamStep(s: System, step: Step)
    requires Enabled(s, step)
    ensures Do(s, step).connected == if Reopens(step, Client) then Opens(step, Client) else s.connected
    ensures Do(s, step).subscribed == (!step.Break? && (step.Subscribe? || s.subscribed))
  {
  }

  /**
   A Link is open if it was opened and not closed since, watched if its event loop was started since; the client is
   connected while its Link is open, and subscribed from the server's subscription until the stream breaks.
   */
  lemma {:induction false} LinksAreOpenSince(run: seq<System>, steps: seq<Step>, x: Side, n: nat)
    requires Execution(run, steps) && n <= |steps|
    ensures run[n].At(x).open == IsOpen(steps, x, n) && run[n].At(x).started == IsStarted(steps, x, n)
    ensures run[n].connected == IsOpen(steps, Client, n) && run[n].subscribed == IsSubscribed(steps, n)
  {
    if n > 0 {
      LinksAreOpenSince(run, steps, x, n - 1);
      LinkStep(run[n - 1], steps[n - 1], x);
      StreamStep(run[n - 1], steps[n - 1]);
    }
  }

  // ---- Observations -------------------------------------------------------

  /** The flags of x captured since its Link was opened. */
  ghost function Captured(run: seq<System>, steps: seq<Step>, x: Side, n: nat): seq<Observation>
    requires Behaviour(run, steps) && n <= |steps|
  {
    if n == 0 || Reopens(steps[n - 1], x) then []
    else
      Captured(run, steps, x, n - 1)
      + if steps[n - 1] == Notify(x)
        then [Observation(run[n - 1].At(x).admin, run[n - 1].At(x).admin && run[n - 1].At(x).device)]
        else []
  }

  /** How many of them were published. */
  function Publications(steps: seq<Step>, x: Side, n: nat): nat
    requires n <= |steps|
  {
    if n == 0 || Reopens(steps[n - 1], x) then 0
    else Publications(steps, x, n - 1) + if steps[n - 1] == Publish(x) then 1 else 0
  }

  /** Whether the last of those is still to be consumed. */
  function IsPending(steps: seq<Step>, x: Side, n: nat): bool
    requires n <= |steps|
  {
    n > 0 && !Reopens(steps[n - 1], x) && steps[n - 1] != Consume(x) && (steps[n - 1] == Publish(x) || IsPending(steps, x, n - 1))
  }

  /** What is noted and what waits to be consumed, from what was captured and how much of it was published. */
  predicate InOrder(e: End, captured: seq<Observation>, published: nat, pending: bool) {
    && published <= |captured| && e.notes == captured[published..]
    && (pending ==> published > 0)
    && e.event == if pending then Some(captured[published - 1]) else None
  }

  lemma InOrderNotified(e: End, captured: seq<Observation>, published: nat, pending: bool, e': End)
    requires InOrder(e, captured, published, pending) && e'.notes == e.notes + [e.Flags()] && e'.event == e.event
    ensures InOrder(e', captured + [e.Flags()], published, pending)
  {
  }

  lemma InOrderPublished(e: End, captured: seq<Observation>, published: nat, pending: bool, e': End)
    requires InOrder(e, captured, published, pending) && e.notes != []
    requires e'.notes == e.notes[1..] && e'.event == Some(e.notes[0])
    ensures InOrder(e', captured, published + 1, true)
  {
  }

  lemma ObservationStepLook(s: System, step: Step, x: Side)
    requires Enabled(s, step) && (step.Consume? || step.Start?) && !Reopens(step, x) && step != Notify(x) && step != Publish(x)
    ensures Do(s, step).At(x).notes == s.At(x).notes
    ensures Do(s, step).At(x).event == if step == Consume(x) then None else s.At(x).event
  {
    LookFrame(s, step, step.x);
  }

  lemma ObservationStepLocal(s: System, step: Step, x: Side)
    requires Enabled(s, step) && (step.Device? || step.Notify? || step.Publish?)
    requires !Reopens(step, x) && step != Notify(x) && step != Publish(x)
    ensures Do(s, step).At(x).notes == s.At(x).notes
    ensures Do(s, step).At(x).event == if step == Consume(x) then None else s.At(x).event
  {
  }

  lemma ObservationStepStream(s: System, step: Step, x: Side)
    requires Enabled(s, step) && !step.Reporting() && !Reopens(step, x) && step != Notify(x) && step != Publish(x)
    ensures Do(s, step).At(x).notes == s.At(x).notes
    ensures Do(s, step).At(x).event == if step == Consume(x) then None else s.At(x).event
  {
  }

  lemma ObservationStep(s: System, step: Step, x: Side)
    requires Enabled(s, step) && !Reopens(step, x) && step != Notify(x) && step != Publish(x)
    ensures Do(s, step).At(x).notes == s.At(x).notes
    ensures Do(s, step).At(x).event == if step == Consume(x) then None else s.At(x).event
  {
    if step.Consume? || step.Start? {
      ObservationStepLook(s, step, x);
    } else if step.Reporting() {
      ObservationStepLocal(s, step, x);
    } else {
      ObservationStepStream(s, step, x);
    }
  }

  lemma OwnObservationStep(s: System, step: Step, x: Side)
    requires Enabled(s, step) && (step == Notify(x) || step == Publish(x))
    ensures var e, e' := s.At(x), Do(s, step).At(x);
            && (step.Notify? ==> e'.notes == e.notes + [e.Flags()] && e'.event == e.event)
            && (step.Publish? ==> e'.notes == e.notes[1..] && e'.event == Some(e.notes[0]))
  {
  }

  lemma FreshLink(s: System, step: Step, x: Side)
    requires Enabled(s, step) && Reopens(step, x)
    ensures Do(s, step).At(x).notes == [] && Do(s, step).At(x).event == None
  {
  }

  /**
   The observations of x since its Link was opened are published in the order in which they were captured: those
   noted are exactly the ones captured but not published, and the one to be consumed is the last one published.
   */
  lemma {:induction false} ObservationsInOrder(run: seq<System>, steps: seq<Step>, x: Side, n: nat)
    requires Execution(run, steps) && n <= |steps|
    ensures InOrder(run[n].At(x), Captured(run, steps, x, n), Publications(steps, x, n), IsPending(steps, x, n))
  {
    if n > 0 {
      ObservationsInOrder(run, steps, x, n - 1);
      var s, step := run[n - 1], steps[n - 1];
      if Reopens(step, x) {
        FreshLink(s, step, x);
      } else {
        ObservationsNext(s, step, x, Captured(run, steps, x, n - 1), Publications(steps, x, n - 1), IsPending(steps, x, n - 1));
      }
    }
  }

  lemma ObservationsNext(s: System, step: Step, x: Side, captured: seq<Observation>, published: nat, pending: bool)
    requires Enabled(s, step) && !Reopens(step, x) && InOrder(s.At(x), captured, published, pending)
    ensures InOrder(Do(s, step).At(x),
                    captured + (if step == Notify(x) then [s.At(x).Flags()] else []),
                    published + (if step == Publish(x) then 1 else 0),
                    step != Consume(x) && (step == Publish(x) || pending))
  {
    var e, e' := s.At(x), Do(s, step).At(x);
    assert captured + [] == captured;
    if step == Notify(x) {
      OwnObservationStep(s, step, x);
      InOrderNotified(e, captured, published, pending, e');
    } else if step == Publish(x) {
      OwnObservationStep(s, step, x);
      InOrderPublished(e, captured, published, pending, e');
    } else {
      ObservationStep(s, step, x);
    }
  }

  /** The flags of x changed since they were captured last, or its Link was opened. */
  ghost function Changed(run: seq<System>, steps: seq<Step>, x: Side, n: nat): bool
    requires Behaviour(run, steps) && n <= |steps|
  {
    if n == 0 then run[0].At(x).dirty
    else
      && steps[n - 1] != Notify(x) && !Opens(steps[n - 1], x)
      && (Changed(run, steps, x, n - 1)
          || run[n].At(x).admin != run[n - 1].At(x).admin
          || (run[n].At(x).admin && run[n].At(x).device != run[n - 1].At(x).device))
  }

  lemma ChangeStepLook(s: System, step: Step, x: Side)
    requires Enabled(s, step) && (step.Consume? || step.Start?)
    ensures var e, e' := s.At(x), Do(s, step).At(x);
            e'.dirty == (step != Notify(x) && !Opens(step, x)
                         && (e.dirty || e'.admin != e.admin || (e'.admin && e'.device != e.device)))
  {
    LookFrame(s, step, step.x);
  }

  lemma ChangeStepLocal(s: System, step: Step, x: Side)
    requires Enabled(s, step) && (step.Device? || step.Notify? || step.Publish?)
    ensures var e, e' := s.At(x), Do(s, step).At(x);
            e'.dirty == (step != Notify(x) && !Opens(step, x)
                         && (e.dirty || e'.admin != e.admin || (e'.admin && e'.device != e.device)))
  {
  }

  lemma ChangeStepStream(s: System, step: Step, x: Side)
    requires Enabled(s, step) && !step.Reporting()
    ensures var e, e' := s.At(x), Do(s, step).At(x);
            e'.dirty == (step != Notify(x) && !Opens(step, x)
                         && (e.dirty || e'.admin != e.admin || (e'.admin && e'.device != e.device)))
  {
  }

  lemma ChangeStep(s: System, step: Step, x: Side)
    requires Enabled(s, step)
    ensures var e, e' := s.At(x), Do(s, step).At(x);
            e'.dirty == (step != Notify(x) && !Opens(step, x)
                         && (e.dirty || e'.admin != e.admin || (e'.admin && e'.device != e.device)))
  {
    if step.Consume? || step.Start? {
      ChangeStepLook(s, step, x);
    } else if step.Reporting() {
      ChangeStepLocal(s, step, x);
    } else {
      ChangeStepStream(s, step, x);
    }
  }

  /** The kernel has a notification to make exactly if the flags changed since the last one. */
  lemma {:induction false} DirtyIsChanged(run: seq<System>, steps: seq<Step>, x: Side, n: nat)
    requires Behaviour(run, steps) && n <= |steps|
    ensures run[n].At(x).dirty == Changed(run, steps, x, n)
  {
    if n > 0 {
      DirtyIsChanged(run, steps, x, n - 1);
      ChangeStep(run[n - 1], steps[n - 1], x);
    }
  }

  // ---- Messages -----------------------------------------------------------

  /** The messages that the step puts on the stream from x. */
  function SentBy(s: System, step: Step, x: Side): seq<LinkState>
    requires Enabled(s, step)
  {
    if x.Server? then if step.Send? then [s.server.slot.value] else []
    else if Reported(s, step, x) != Unknown then [Reported(s, step, x)]
    else []
  }

  /** The messages of x that the step takes off the stream: applied, or lost with the stream or its handler. */
  function TakenBy(s: System, step: Step, x: Side): seq<LinkState>
    requires Enabled(s, step)
  {
    match step
    case Deliver(y) => if y == x.Other() then [s.At(x).wire[0]] else []
    case DeliverLate => if x.Client? then [s.late[0]] else []
    case Subscribe => if x.Client? then s.late else []
    case Break => if x.Server? then s.server.wire else []
    case _ => []
  }

  ghost function Sent(run: seq<System>, steps: seq<Step>, x: Side, n: nat): seq<LinkState>
    requires Behaviour(run, steps) && n <= |steps|
  {
    if n == 0 then [] else Sent(run, steps, x, n - 1) + SentBy(run[n - 1], steps[n - 1], x)
  }

  ghost function Taken(run: seq<System>, steps: seq<Step>, x: Side, n: nat): seq<LinkState>
    requires Behaviour(run, steps) && n <= |steps|
  {
    if n == 0 then [] else Taken(run, steps, x, n - 1) + TakenBy(run[n - 1], steps[n - 1], x)
  }

  /** The messages of x on the stream, those of the client's previous stream first. */
  function UnderWay(s: System, x: Side): seq<LinkState> {
    if x.Server? then s.server.wire else s.late + s.client.wire
  }

  lemma Head(wire: seq<LinkState>)
    requires wire != []
    ensures [wire[0]] + wire[1..] == wire
  {
  }

  /** The step puts on and takes off the stream from x what it should. */
  predicate MovesMessages(s: System, step: Step, x: Side)
    requires Enabled(s, step)
  {
    UnderWay(s, x) + SentBy(s, step, x) == TakenBy(s, step, x) + UnderWay(Do(s, step), x)
  }

  lemma LookMoves(s: System, step: Step, x: Side)
    requires Enabled(s, step) && (step.Consume? || step.Start?)
    ensures MovesMessages(s, step, x)
  {
    LookFrame(s, step, step.x);
  }

  lemma NothingMoves(s: System, step: Step, x: Side)
    requires Enabled(s, step)
    requires step.Device? || step.Notify? || step.Publish? || step.Connect? || step.Attach? || step.Detach?
    requires step.Connect? ==> s.client.wire == []
    ensures MovesMessages(s, step, x)
  {
    assert UnderWay(s, x) == UnderWay(Do(s, step), x);
  }

  lemma ServerMoves(s: System, step: Step)
    requires Enabled(s, step) && (step.Send? || step.Subscribe? || step.Break? || step.Delivery())
    ensures MovesMessages(s, step, Server)
  {
    if s.server.wire != [] {
      Head(s.server.wire);
    }
  }

  lemma ClientMoves(s: System, step: Step)
    requires Enabled(s, step) && (step.Send? || step.Subscribe? || step.Break? || step.DeliverLate?)
    ensures MovesMessages(s, step, Client)
  {
    if s.late != [] {
      Head(s.late);
    }
  }

  lemma ClientDelivered(s: System, x: Side)
    requires Enabled(s, Deliver(x)) && s.late == []
    ensures MovesMessages(s, Deliver(x), Client)
  {
    if s.client.wire != [] {
      Head(s.client.wire);
    }
  }

  lemma MessageStep(s: System, step: Step, x: Side)
    requires Enabled(s, step) && Invariant(s)
    ensures MovesMessages(s, step, x)
  {
    if step.Consume? || step.Start? {
      LookMoves(s, step, x);
    } else if step.Send? || step.Subscribe? || step.Break? || step.Delivery() {
      if x.Server? {
        ServerMoves(s, step);
      } else if step.Deliver? {
        ClientDelivered(s, step.x);
      } else {
        ClientMoves(s, step);
      }
    } else {
      NothingMoves(s, step, x);
    }
  }

  /**
   In every run the messages of an end are taken off the stream in the order in which they were sent, each once: those
   sent are those taken, followed by those under way.
   */
  lemma {:induction false} MessagesInOrder(run: seq<System>, steps: seq<Step>, x: Side, n: nat)
    requires Execution(run, steps) && n <= |steps|
    ensures Sent(run, steps, x, n) == Taken(run, steps, x, n) + UnderWay(run[n], x)
  {
    if n > 0 {
      MessagesInOrder(run, steps, x, n - 1);
      var s, step := run[n - 1], steps[n - 1];
      ExecutionInvariant(run, steps);
      assert Invariant(s);
      MessageStep(s, step, x);
      Regroup(Taken(run, steps, x, n - 1), UnderWay(s, x), SentBy(s, step, x), TakenBy(s, step, x), UnderWay(run[n], x));
    }
  }

  lemma Regroup(taken: seq<LinkState>, before: seq<LinkState>, sent: seq<LinkState>, off: seq<LinkState>, now: seq<LinkState>)
    requires before + sent == off + now
    ensures (taken + before) + sent == (taken + off) + now
  {
    assert (taken + before) + sent == taken + (before + sent);
  }

  /** The report that waits in the server's channel: the last one since the stream was subscribed or it was sent. */
  ghost function Waiting(run: seq<System>, steps: seq<Step>, n: nat): Option<LinkState>
    requires Behaviour(run, steps) && n <= |steps|
  {
    if n == 0 then None
    else
      var s, step := run[n - 1], steps[n - 1];
      if step.Send? || step.Break? then None
      else if step.Subscribe? then if s.server.reported == Unknown then None else Some(s.server.reported)
      else if s.subscribed && Reported(s, step, Server) != Unknown then Some(Reported(s, step, Server))
      else Waiting(run, steps, n - 1)
  }

  lemma SlotStepLook(s: System, step: Step)
    requires Enabled(s, step) && (step.Consume? || step.Start?)
    ensures Do(s, step).server.slot
            == (if step.Send? || step.Break? then None
                else if step.Subscribe? then if s.server.reported == Unknown then None else Some(s.server.reported)
                else if s.subscribed && Reported(s, step, Server) != Unknown then Some(Reported(s, step, Server))
                else s.server.slot)
  {
    LookFrame(s, step, step.x);
  }

  lemma SlotStepLocal(s: System, step: Step)
    requires Enabled(s, step) && (step.Device? || step.Notify? || step.Publish?)
    ensures Do(s, step).server.slot
            == (if step.Send? || step.Break? then None
                else if step.Subscribe? then if s.server.reported == Unknown then None else Some(s.server.reported)
                else if s.subscribed && Reported(s, step, Server) != Unknown then Some(Reported(s, step, Server))
                else s.server.slot)
  {
  }

  lemma SlotStepStream(s: System, step: Step)
    requires Enabled(s, step) && !step.Reporting()
    ensures Do(s, step).server.slot
            == (if step.Send? || step.Break? then None
                else if step.Subscribe? then if s.server.reported == Unknown then None else Some(s.server.reported)
                else if s.subscribed && Reported(s, step, Server) != Unknown then Some(Reported(s, step, Server))
                else s.server.slot)
  {
  }

  lemma SlotStep(s: System, step: Step)
    requires Enabled(s, step)
    ensures Do(s, step).server.slot
            == (if step.Send? || step.Break? then None
                else if step.Subscribe? then if s.server.reported == Unknown then None else Some(s.server.reported)
                else if s.subscribed && Reported(s, step, Server) != Unknown then Some(Reported(s, step, Server))
                else s.server.slot)
  {
    if step.Consume? || step.Start? {
      SlotStepLook(s, step);
    } else if step.Reporting() {
      SlotStepLocal(s, step);
    } else {
      SlotStepStream(s, step);
    }
  }

  lemma {:induction false} SlotIsLatest(run: seq<System>, steps: seq<Step>, n: nat)
    requires Execution(run, steps) && n <= |steps|
    ensures run[n].server.slot == Waiting(run, steps, n)
  {
    if n > 0 {
      SlotIsLatest(run, steps, n - 1);
      SlotStep(run[n - 1], steps[n - 1]);
    }
  }
}
