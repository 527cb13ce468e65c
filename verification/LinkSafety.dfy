/**
 Safety of the link-state protocol over whole executions: the inductive invariant,
 agreement of the two ends at quiescence, and the case of one steady device.
 */
module LinkSafety {
  import opened Wrappers
  import opened Sequences
  import opened LinkReporter
  import opened LinkProtocol

  // ---- The invariant ------------------------------------------------------

  /** Coalescing keeps the newest observation: once notified, the newest one in flight tells the current flags. */
  predicate NewestIsCurrent(e: End) {
    e.open && !e.dirty && e.Observing() ==> e.Newest() == e.Flags()
  }

  /** With nothing in flight the reporter has seen the current flags. */
  predicate ReporterIsCurrent(e: End) {
    e.started && !e.dirty && !e.Observing() ==> e.reported == Report(e.Flags())
  }

  /** A reported state is the one the other end is heading for. */
  predicate PeerFollows(s: System, x: Side) {
    Linked(s, x) && s.At(x).reported != Unknown ==> Heading(s, x) == s.At(x).reported
  }

  predicate WellFormed(s: System) {
    && (s.server.started ==> s.server.open)
    && (s.client.started ==> s.client.open)
    && (s.connected <==> s.client.open)
    && (s.subscribed ==> s.connected && s.late == [])
    && (!s.subscribed ==> s.server.slot == None && s.server.wire == [])
    && (!s.connected ==> s.client.wire == [])
    && s.client.slot == None
    && (!s.client.started ==> s.client.wire == [] && s.client.reported == Unknown)
    && (!s.server.started ==> s.server.reported == Unknown)
    && (!s.subscribed && s.client.reported != Unknown ==> s.client.wire != [])
    && (!s.server.open ==> !s.server.Observing())
    && (!s.client.open ==> !s.client.Observing())
  }

  predicate Invariant(s: System) {
    && WellFormed(s)
    && NewestIsCurrent(s.server) && NewestIsCurrent(s.client)
    && ReporterIsCurrent(s.server) && ReporterIsCurrent(s.client)
    && PeerFollows(s, Server) && PeerFollows(s, Client)
  }

  lemma InitialInvariant(s: System)
    requires Initial(s)
    ensures Invariant(s)
  {
  }

  lemma DeviceLocal(e: End, up: bool)
    requires NewestIsCurrent(e) && ReporterIsCurrent(e)
    ensures NewestIsCurrent(e.SetDevice(up)) && ReporterIsCurrent(e.SetDevice(up))
  {
  }

  lemma DeviceServerKeepsInvariant(s: System, up: bool)
    requires Invariant(s)
    ensures Invariant(s.(server := s.server.SetDevice(up)))
  {
    DeviceLocal(s.server, up);
  }

  lemma DeviceClientKeepsInvariant(s: System, up: bool)
    requires Invariant(s)
    ensures Invariant(s.(client := s.client.SetDevice(up)))
  {
    DeviceLocal(s.client, up);
  }

  lemma NotifyKeepsInvariant(s: System, x: Side)
    requires Invariant(s) && s.At(x).open
    ensures Invariant(Do(s, Notify(x)))
  {
  }

  lemma PublishLocal(e: End)
    requires e.notes != [] && NewestIsCurrent(e)
    ensures var e' := e.(event := Some(e.notes[0]), notes := e.notes[1..]);
            NewestIsCurrent(e') && ReporterIsCurrent(e')
  {
  }

  lemma PublishKeepsInvariant(s: System, x: Side)
    requires Invariant(s) && s.At(x).notes != []
    ensures Invariant(Do(s, Publish(x)))
  {
    PublishLocal(s.At(x));
  }

  /** The end-local part of consuming an event; what is in flight after it is settled by the next two lemmas. */
  lemma ConsumeLocal(e: End, e': End)
    requires e.event.Some? && e.open && e.started && NewestIsCurrent(e)
    requires e' == e.(event := None, reported := Report(e.event.value), slot := e'.slot, wire := e'.wire)
    ensures NewestIsCurrent(e') && ReporterIsCurrent(e')
  {
  }

  lemma ConsumeServerKeepsInvariant(s: System)
    requires Invariant(s) && Enabled(s, Consume(Server))
    ensures Invariant(Do(s, Consume(Server)))
  {
    ConsumeLocal(s.server, Do(s, Consume(Server)).server);
  }

  lemma ConsumeClientKeepsInvariant(s: System)
    requires Invariant(s) && Enabled(s, Consume(Client))
    ensures Invariant(Do(s, Consume(Client)))
  {
    ConsumeLocal(s.client, Do(s, Consume(Client)).client);
  }

  lemma DeliverServerKeepsInvariant(s: System)
    requires Invariant(s) && Enabled(s, Deliver(Server))
    ensures Invariant(Do(s, Deliver(Server)))
  {
  }

  lemma DeliverClientKeepsInvariant(s: System)
    requires Invariant(s) && Enabled(s, Deliver(Client))
    ensures Invariant(Do(s, Deliver(Client)))
  {
  }

  lemma StartServerKeepsInvariant(s: System)
    requires Invariant(s) && Enabled(s, Start(Server))
    ensures Invariant(Do(s, Start(Server)))
  {
  }

  lemma StartClientKeepsInvariant(s: System)
    requires Invariant(s) && Enabled(s, Start(Client))
    ensures Invariant(Do(s, Start(Client)))
  {
  }

  lemma StreamStepKeepsInvariant(s: System, step: Step)
    requires Invariant(s) && Enabled(s, step)
    requires step.Send? || step.Connect? || step.Subscribe? || step.Break?
    ensures Invariant(Do(s, step))
  {
  }

  lemma ServerStepKeepsInvariant(s: System, step: Step)
    requires Invariant(s) && Enabled(s, step)
    requires step.DeliverLate? || step.Attach? || step.Detach?
    ensures Invariant(Do(s, step))
  {
  }

  lemma StepKeepsInvariant(s: System, step: Step)
    requires Invariant(s) && Enabled(s, step)
    ensures Invariant(Do(s, step))
  {
    match step
    case Device(x, up) =>
      if x.Server? {
        DeviceServerKeepsInvariant(s, up);
      } else {
        DeviceClientKeepsInvariant(s, up);
      }
    case Notify(x) => NotifyKeepsInvariant(s, x);
    case Publish(x) => PublishKeepsInvariant(s, x);
    case Consume(x) =>
      if x.Server? {
        ConsumeServerKeepsInvariant(s);
      } else {
        ConsumeClientKeepsInvariant(s);
      }
    case Deliver(x) =>
      if x.Server? {
        DeliverServerKeepsInvariant(s);
      } else {
        DeliverClientKeepsInvariant(s);
      }
    case Start(x) =>
      if x.Server? {
        StartServerKeepsInvariant(s);
      } else {
        StartClientKeepsInvariant(s);
      }
    case Send => StreamStepKeepsInvariant(s, step);
    case Connect => StreamStepKeepsInvariant(s, step);
    case Subscribe => StreamStepKeepsInvariant(s, step);
    case Break => StreamStepKeepsInvariant(s, step);
    case DeliverLate => ServerStepKeepsInvariant(s, step);
    case Attach => ServerStepKeepsInvariant(s, step);
    case Detach => ServerStepKeepsInvariant(s, step);
  }

  lemma {:induction false} ExecutionInvariant(run: seq<System>, steps: seq<Step>)
    requires Execution(run, steps)
    ensures forall i :: 0 <= i < |run| ==> Invariant(run[i])
    decreases |steps|
  {
    if |steps| == 0 {
      InitialInvariant(run[0]);
    } else {
      assert Execution(Init(run), Init(steps));
      ExecutionInvariant(Init(run), Init(steps));
      StepKeepsInvariant(run[|steps| - 1], Last(steps));
      forall i | 0 <= i < |run| ensures Invariant(run[i]) {
        assert i < |steps| ==> run[i] == Init(run)[i];
      }
    }
  }

  // ---- Agreement at quiescence --------------------------------------------

  /** Both interfaces are up exactly when both devices are; an interface is down only if the far device is. */
  predicate Agreement(s: System) {
    && (s.server.admin && s.client.admin <==> s.server.device && s.client.device)
    && (!s.server.admin ==> !s.client.device)
    && (!s.client.admin ==> !s.server.device)
  }

  lemma QuiescentAgreement(s: System)
    requires Invariant(s) && Quiescent(s)
    ensures Agreement(s) <==> s.server.admin || s.client.admin || (!s.server.device && !s.client.device)
    ensures forall x: Side :: s.At(x).admin ==> s.At(x.Other()).admin == s.At(x).device
  {
    assert ReporterIsCurrent(s.server) && ReporterIsCurrent(s.client);
    assert PeerFollows(s, Server) && PeerFollows(s, Client);
  }

  /**
   Despite coalescing, lost streams and demux restarts, every reachable quiescent state agrees
   with the devices -- except when both interfaces ended admin down while some device is up, and then
   it does not. An interface that is up always shows the device beyond it to the other end.
   */
  lemma AgreementAtQuiescence(run: seq<System>, steps: seq<Step>)
    requires Execution(run, steps) && Quiescent(Last(run))
    ensures var s := Last(run);
            Agreement(s) <==> s.server.admin || s.client.admin || (!s.server.device && !s.client.device)
    ensures forall x: Side :: Last(run).At(x).admin ==> Last(run).At(x.Other()).admin == Last(run).At(x).device
  {
    ExecutionInvariant(run, steps);
    QuiescentAgreement(Last(run));
  }

  // ---- One steady device --------------------------------------------------

  /** The reports of x under way, at any stage, are all UP. */
  predicate OnlyUp(s: System, x: Side) {
    var e := s.At(x);
    && (e.event.Some? ==> Report(e.event.value) != Down)
    && (forall i :: 0 <= i < |e.notes| ==> Report(e.notes[i]) != Down)
    && e.reported != Down
    && (e.slot.Some? ==> e.slot.value == Up)
    && AllUp(e.wire)
    && (x.Client? ==> AllUp(s.late))
  }

  predicate AllUp(messages: seq<LinkState>) {
    forall i :: 0 <= i < |messages| ==> messages[i] == Up
  }

  /** Only UP is under way from x after the step, and the other interface was not taken down. */
  predicate Steady(s: System, s': System, x: Side) {
    OnlyUp(s', x) && (s.At(x.Other()).admin ==> s'.At(x.Other()).admin)
  }

  lemma SteadyNotify(s: System, x: Side)
    requires Enabled(s, Notify(x)) && OnlyUp(s, x) && s.At(x).device
    ensures Steady(s, Do(s, Notify(x)), x)
  {
  }

  lemma SteadyPublish(s: System, x: Side)
    requires Enabled(s, Publish(x)) && OnlyUp(s, x)
    ensures Steady(s, Do(s, Publish(x)), x)
  {
  }

  /** Observing anything but a lost carrier puts no DOWN under way. */
  lemma SteadyObserve(s: System, x: Side, o: Observation)
    requires OnlyUp(s, x) && Report(o) != Down
    ensures Steady(s, Observe(s, x, o), x)
  {
  }

  lemma SteadyOwnStep(s: System, step: Step, x: Side)
    requires Enabled(s, step) && OnlyUp(s, x) && s.At(x).device
    requires step == Notify(x) || step == Publish(x) || step == Consume(x) || step == Start(x)
    ensures Steady(s, Do(s, step), x)
  {
    var e := s.At(x);
    match step
    case Notify(_) => SteadyNotify(s, x);
    case Publish(_) => SteadyPublish(s, x);
    case Consume(_) => SteadyObserve(s.With(x, e.(event := None)), x, e.event.value);
    case Start(_) => SteadyObserve(s.With(x, e.(started := true)), x, e.Flags());
  }

  lemma SteadyOtherStep(s: System, step: Step, x: Side)
    requires Enabled(s, step) && OnlyUp(s, x)
    requires step == Notify(x.Other()) || step == Publish(x.Other()) || step == Consume(x.Other()) || step == Start(x.Other())
    ensures Steady(s, Do(s, step), x)
  {
    assert Do(s, step).At(x) == s.At(x) && Do(s, step).late == s.late;
  }

  lemma SteadyDelivery(s: System, step: Step, x: Side)
    requires Enabled(s, step) && OnlyUp(s, x) && step.Delivery()
    ensures Steady(s, Do(s, step), x)
  {
  }

  lemma SteadyMessage(s: System, step: Step, x: Side)
    requires Enabled(s, step) && OnlyUp(s, x) && (step.Device? || step.Send? || step.Subscribe?)
    ensures Steady(s, Do(s, step), x)
  {
  }

  lemma SteadyLink(s: System, step: Step, x: Side)
    requires Enabled(s, step) && OnlyUp(s, x) && (step.Connect? || step.Attach? || step.Detach?)
    ensures Steady(s, Do(s, step), x)
  {
  }

  lemma SteadyBreak(s: System, x: Side)
    requires Enabled(s, Break) && OnlyUp(s, x)
    ensures Steady(s, Do(s, Break), x)
  {
  }

  lemma SteadyStep(s: System, step: Step, x: Side)
    requires Enabled(s, step) && OnlyUp(s, x) && s.At(x).device
    ensures Steady(s, Do(s, step), x)
  {
    if step.Notify? || step.Publish? || step.Consume? || step.Start? {
      if step.x == x {
        SteadyOwnStep(s, step, x);
      } else {
        SteadyOtherStep(s, step, x);
      }
    } else if step.Delivery() {
      SteadyDelivery(s, step, x);
    } else if step.Break? {
      SteadyBreak(s, x);
    } else if step.Device? || step.Send? || step.Subscribe? {
      SteadyMessage(s, step, x);
    } else {
      SteadyLink(s, step, x);
    }
  }

  lemma {:induction false} StaysOnlyUp(run: seq<System>, steps: seq<Step>, x: Side, n: nat)
    requires Execution(run, steps) && n < |run| && forall i :: 0 <= i < |run| ==> run[i].At(x).device
    ensures OnlyUp(run[n], x)
  {
    if n > 0 {
      StaysOnlyUp(run, steps, x, n - 1);
      SteadyStep(run[n - 1], steps[n - 1], x);
    }
  }

  /** While the device beyond x stays up, no step takes the far interface down, whatever state it started in. */
  lemma NeverTakenDown(run: seq<System>, steps: seq<Step>, x: Side)
    requires Execution(run, steps)
    requires forall i :: 0 <= i < |run| ==> run[i].At(x).device
    ensures forall i :: 0 <= i < |steps| && run[i].At(x.Other()).admin ==> run[i + 1].At(x.Other()).admin
    ensures OnlyUp(Last(run), x)
  {
    StaysOnlyUp(run, steps, x, |steps|);
    forall i | 0 <= i < |steps| && run[i].At(x.Other()).admin ensures run[i + 1].At(x.Other()).admin {
      StaysOnlyUp(run, steps, x, i);
      SteadyStep(run[i], steps[i], x);
    }
  }
}
