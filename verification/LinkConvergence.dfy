/**
 Convergence of the link-state protocol: once the devices keep still and the stream stays up,
 every order of the remaining work ends, within a bound that can be read off the state, in
 a quiescent state. The two ends never chase each other's reports for ever.
 */
module LinkConvergence {
  import opened Wrappers
  import opened Sequences
  import opened LinkReporter
  import opened LinkProtocol
  import opened LinkSafety
  import opened LinkLatch

  /** Both ends report over an established stream. */
  predicate Live(s: System) {
    s.subscribed && s.late == [] && s.client.slot == None && s.server.started && s.client.started
  }

  /** Work left to do: notifying a change, moving an observation on, sending, delivering. */
  predicate Productive(s: System, step: Step) {
    Enabled(s, step) && ((step.Notify? && s.At(step.x).dirty) || step.Publish? || step.Consume? || step.Send? || step.Deliver?)
  }

  // ---- The rank -----------------------------------------------------------

  /** An observation that would report something else than the device does now. */
  predicate Misleading(o: Observation, device: bool) {
    o.adminUp && o.carrier != device
  }

  function MisleadingNotes(notes: seq<Observation>, device: bool): nat {
    if notes == [] then 0
    else MisleadingNotes(Init(notes), device) + if Misleading(Last(notes), device) then 1 else 0
  }

  function Wrong(messages: seq<LinkState>, device: bool): nat {
    if messages == [] then 0
    else Wrong(Init(messages), device) + if Last(messages) != AsLinkState(device) then 1 else 0
  }

  /** Everything under way from e that misreports its device. */
  function Errors(e: End): nat {
    MisleadingNotes(e.notes, e.device)
    + (if e.event.Some? && Misleading(e.event.value, e.device) then 1 else 0)
    + (if e.slot.Some? && e.slot.value != AsLinkState(e.device) then 1 else 0)
    + Wrong(e.wire, e.device)
  }

  /** A bound on how often reports of `e` can still change the other interface. */
  function Churn(e: End, otherAdmin: bool): nat {
    2 * Errors(e) + if otherAdmin != e.device then 1 else 0
  }

  /** Items under way, weighted by the stages they still have to pass. */
  function Work(e: End): nat {
    (if e.dirty then 5 else 0) + 4 * |e.notes| + (if e.event.Some? then 3 else 0)
    + (if e.slot.Some? then 2 else 0) + |e.wire|
  }

  function Rank(s: System): nat {
    5 * (Churn(s.server, s.client.admin) + Churn(s.client, s.server.admin)) + Work(s.server) + Work(s.client)
  }

  lemma {:induction false} MisleadingHead(notes: seq<Observation>, device: bool)
    requires notes != []
    ensures MisleadingNotes(notes, device)
            == (if Misleading(notes[0], device) then 1 else 0) + MisleadingNotes(notes[1..], device)
    decreases |notes|
  {
    if |notes| > 1 {
      MisleadingHead(Init(notes), device);
      assert Init(notes)[1..] == Init(notes[1..]);
    } else {
      assert MisleadingNotes(Init(notes), device) == 0;
    }
  }

  lemma {:induction false} WrongHead(messages: seq<LinkState>, device: bool)
    requires messages != []
    ensures Wrong(messages, device)
            == (if messages[0] != AsLinkState(device) then 1 else 0) + Wrong(messages[1..], device)
    decreases |messages|
  {
    if |messages| > 1 {
      WrongHead(Init(messages), device);
      assert Init(messages)[1..] == Init(messages[1..]);
    } else {
      assert Wrong(Init(messages), device) == 0;
    }
  }

  /** Less work at one end, and no more errors, is a lower rank. */
  lemma EndDecreases(s: System, x: Side, e: End)
    requires e.admin == s.At(x).admin && e.device == s.At(x).device
    requires Errors(e) <= Errors(s.At(x)) && Work(e) < Work(s.At(x))
    ensures Rank(s.With(x, e)) < Rank(s)
  {
  }

  lemma NotifyDecreases(s: System, x: Side)
    requires Enabled(s, Notify(x)) && s.At(x).dirty
    ensures Rank(Do(s, Notify(x))) < Rank(s)
  {
    var e := s.At(x);
    var e' := e.(notes := e.notes + [e.Flags()], dirty := false);
    assert Init(e'.notes) == e.notes;
    EndDecreases(s, x, e');
  }

  lemma PublishDecreases(s: System, x: Side)
    requires Enabled(s, Publish(x))
    ensures Rank(Do(s, Publish(x))) < Rank(s)
  {
    var e := s.At(x);
    MisleadingHead(e.notes, e.device);
    EndDecreases(s, x, e.(event := Some(e.notes[0]), notes := e.notes[1..]));
  }

  /** The end x after its reporter consumed the waiting event, over a live stream. */
  function Consumed(e: End, x: Side): End
    requires e.event.Some?
  {
    var e' := e.(event := None, reported := Report(e.event.value));
    var m := Emit(e.reported, e.event.value);
    if m == Unknown then e'
    else if x.Server? then e'.(slot := Some(m))
    else e'.(wire := e.wire + [m])
  }

  lemma ConsumedServer(s: System)
    requires Live(s) && Enabled(s, Consume(Server))
    ensures Do(s, Consume(Server)) == s.With(Server, Consumed(s.server, Server))
  {
  }

  lemma ConsumedClient(s: System)
    requires Live(s) && Enabled(s, Consume(Client))
    ensures Do(s, Consume(Client)) == s.With(Client, Consumed(s.client, Client))
  {
  }

  lemma ConsumedErrors(e: End, x: Side)
    requires e.event.Some?
    ensures Errors(Consumed(e, x)) <= Errors(e) && Work(Consumed(e, x)) < Work(e)
  {
    var m := Emit(e.reported, e.event.value);
    if m != Unknown {
      assert m != AsLinkState(e.device) <==> Misleading(e.event.value, e.device);
      if x.Client? {
        assert Init(e.wire + [m]) == e.wire;
      }
    }
  }

  lemma ConsumeDecreases(s: System, x: Side)
    requires Live(s) && Enabled(s, Consume(x))
    ensures Rank(Do(s, Consume(x))) < Rank(s)
  {
    ConsumedErrors(s.At(x), x);
    EndDecreases(s, x, Consumed(s.At(x), x));
    if x.Server? {
      ConsumedServer(s);
    } else {
      ConsumedClient(s);
    }
  }

  lemma SendDecreases(s: System)
    requires Enabled(s, Send)
    ensures Rank(Do(s, Send)) < Rank(s)
  {
    var e := s.server;
    var e' := e.(slot := None, wire := e.wire + [e.slot.value]);
    assert Init(e'.wire) == e.wire;
    EndDecreases(s, Server, e');
  }

  /** Applying the next message of `sender` to an interface uses up one possible change if it changes anything. */
  lemma ChurnAfterDelivery(sender: End, admin: bool)
    requires sender.wire != []
    ensures var sender' := sender.(wire := sender.wire[1..]);
            var admin' := sender.wire[0] == Up;
            && Work(sender') == Work(sender) - 1
            && Churn(sender', admin') <= Churn(sender, admin) - if admin' != admin then 1 else 0
  {
    WrongHead(sender.wire, sender.device);
  }

  /** A delivery that changes an interface starts new work there, paid for by one possible change less. */
  lemma DeliverDecreases(s: System, x: Side)
    requires Enabled(s, Deliver(x))
    ensures Rank(Do(s, Deliver(x))) < Rank(s)
  {
    var sender, receiver := s.At(x.Other()), s.At(x);
    ChurnAfterDelivery(sender, receiver.admin);
    var sender' := sender.(wire := sender.wire[1..]);
    var receiver' := receiver.SetAdmin(sender.wire[0] == Up);
    AfterSetAdmin(receiver, sender.wire[0] == Up);
    assert sender'.admin == sender.admin;
    if x.Server? {
      assert Do(s, Deliver(x)) == s.(server := receiver', client := sender');
    } else {
      assert Do(s, Deliver(x)) == s.(server := sender', client := receiver');
    }
  }

  lemma AfterSetAdmin(e: End, up: bool)
    ensures Work(e.SetAdmin(up)) <= Work(e) + if up != e.admin then 5 else 0
    ensures forall other: bool :: Churn(e.SetAdmin(up), other) == Churn(e, other)
  {
  }

  lemma RankDecreases(s: System, step: Step)
    requires Live(s) && Productive(s, step)
    ensures Rank(Do(s, step)) < Rank(s)
  {
    match step
    case Notify(x) => NotifyDecreases(s, x);
    case Publish(x) => PublishDecreases(s, x);
    case Consume(x) => ConsumeDecreases(s, x);
    case Send => SendDecreases(s);
    case Deliver(x) => DeliverDecreases(s, x);
  }

  /** The step leaves the stream established and the devices alone. */
  predicate StillLive(s: System, s': System) {
    Live(s') && s'.server.device == s.server.device && s'.client.device == s.client.device
  }

  lemma ConsumeStaysLive(s: System, x: Side)
    requires Live(s) && Enabled(s, Consume(x))
    ensures StillLive(s, Do(s, Consume(x)))
  {
    if x.Server? {
      ConsumedServer(s);
    } else {
      ConsumedClient(s);
    }
  }

  lemma MoveStaysLive(s: System, step: Step)
    requires Live(s) && Enabled(s, step) && (step.Notify? || step.Publish? || step.Send? || step.Deliver?)
    ensures StillLive(s, Do(s, step))
  {
  }

  lemma StaysLive(s: System, step: Step)
    requires Live(s) && Productive(s, step)
    ensures StillLive(s, Do(s, step))
  {
    if step.Consume? {
      ConsumeStaysLive(s, step.x);
    } else {
      MoveStaysLive(s, step);
    }
  }

  lemma WorkUnlessQuiescent(s: System) returns (step: Step)
    requires Live(s) && !Quiescent(s) && s.server.open && s.client.open
    ensures Productive(s, step)
  {
    var x := if Still(s.server) then Client else Server;
    var e := s.At(x);
    step :=
      if e.dirty then Notify(x)
      else if e.notes != [] then Publish(x)
      else if e.event.Some? then Consume(x)
      else if e.slot.Some? then Send
      else Deliver(x.Other());
  }

  // ---- Whole runs ---------------------------------------------------------

  /** From state n on, the run does productive work only. */
  ghost predicate WorksOff(run: seq<System>, steps: seq<Step>, n: nat) {
    && Execution(run, steps) && n < |run| && Live(run[n])
    && forall i :: n <= i < |steps| ==> Productive(run[i], steps[i])
  }

  lemma {:induction false} WorkIsBounded(run: seq<System>, steps: seq<Step>, n: nat)
    requires WorksOff(run, steps, n)
    ensures |steps| - n + Rank(Last(run)) <= Rank(run[n])
    ensures Live(Last(run))
    ensures Last(run).server.device == run[n].server.device && Last(run).client.device == run[n].client.device
    decreases |steps| - n
  {
    if n < |steps| {
      RankDecreases(run[n], steps[n]);
      StaysLive(run[n], steps[n]);
      WorkIsBounded(run, steps, n + 1);
    }
  }

  /**
   Whatever happened before, and in whatever order the pieces work, the bridges settle: at most
   `Rank` productive steps are possible, and where none is left the state is quiescent, so the ends
   agree with the devices unless both interfaces are down for good.
   */
  lemma Converges(run: seq<System>, steps: seq<Step>, n: nat)
    requires WorksOff(run, steps, n)
    ensures |steps| - n <= Rank(run[n])
    ensures (forall step :: !Productive(Last(run), step))
            ==> Quiescent(Last(run)) && (Agreement(Last(run)) || Latched(Last(run)))
  {
    WorkIsBounded(run, steps, n);
    ExecutionInvariant(run, steps);
    if forall step :: !Productive(Last(run), step) {
      if !Quiescent(Last(run)) {
        var step := WorkUnlessQuiescent(Last(run));
        assert false;
      }
      AgreementAtQuiescence(run, steps);
      if BothDown(Last(run)) {
        QuiescentBothDownIsLatched(run, steps);
      }
    }
  }

  /** One more step at the end of an execution. */
  lemma Extend(run: seq<System>, steps: seq<Step>, step: Step) returns (run': seq<System>, steps': seq<Step>)
    requires Execution(run, steps) && Enabled(Last(run), step)
    ensures Execution(run', steps') && steps' == steps + [step] && Init(run') == run
    ensures Last(run') == Do(Last(run), step)
  {
    run', steps' := run + [Do(Last(run), step)], steps + [step];
    forall i | 0 <= i < |steps'|
      ensures Enabled(run'[i], steps'[i]) && run'[i + 1] == Do(run'[i], steps'[i])
    {
      if i < |steps| {
        assert run'[i] == run[i] && run'[i + 1] == run[i + 1];
      }
    }
  }

  /** A quiescent state is always within reach: every execution with a live stream extends to one without a device changing. */
  lemma {:induction false} Settles(run: seq<System>, steps: seq<Step>)
    returns (run': seq<System>, steps': seq<Step>)
    requires Execution(run, steps) && Live(Last(run))
    ensures Execution(run', steps') && run <= run' && steps <= steps'
    ensures Quiescent(Last(run'))
    ensures Last(run').server.device == Last(run).server.device && Last(run').client.device == Last(run).client.device
    decreases Rank(Last(run))
  {
    ExecutionInvariant(run, steps);
    if Quiescent(Last(run)) {
      run', steps' := run, steps;
    } else {
      var step := WorkUnlessQuiescent(Last(run));
      RankDecreases(Last(run), step);
      StaysLive(Last(run), step);
      run', steps' := Extend(run, steps, step);
      run', steps' := Settles(run', steps');
    }
  }

  // ---- The latch is reachable ---------------------------------------------

  /** Both interfaces are up, both devices are down, and nothing is open. */
  const START: System := System(IDLE, IDLE, false, false, [])
  const IDLE: End := End(false, true, false, false, false, [], None, Unknown, None, [])

  /** The server watches its interface; the client has opened its Link. */
  const OPENED: System := System(
    IDLE.(open := true, started := true, reported := Down), IDLE.(open := true), true, false, [])

  /** The stream is established and the first report of each end, DOWN, is on the wire. */
  const CROSSED: System := System(CROSSING, CROSSING, true, true, [])
  const CROSSING: End := End(false, true, true, true, false, [], None, Down, None, [Down])

  /** `s` is the last state of an execution from START. */
  ghost predicate Reachable(s: System) {
    exists run: seq<System>, steps: seq<Step> :: Execution(run, steps) && run[0] == START && Last(run) == s
  }

  lemma Reach(s: System, step: Step)
    requires Reachable(s) && Enabled(s, step)
    ensures Reachable(Do(s, step))
  {
    var run: seq<System>, steps: seq<Step> :| Execution(run, steps) && run[0] == START && Last(run) == s;
    var run', steps' := Extend(run, steps, step);
  }

  lemma ReachOpened()
    ensures Reachable(OPENED)
  {
    assert Execution([START], []) && Last([START]) == START;
    Reach(START, Attach);
    var s1 := Do(START, Attach);
    Reach(s1, Start(Server));
    var s2 := Do(s1, Start(Server));
    Reach(s2, Connect);
    assert Do(s2, Connect) == OPENED;
  }

  lemma ReachCrossed()
    ensures Reachable(CROSSED)
  {
    ReachOpened();
    Reach(OPENED, Start(Client));
    var s1 := Do(OPENED, Start(Client));
    Reach(s1, Subscribe);
    var s2 := Do(s1, Subscribe);
    Reach(s2, Send);
    assert Do(s2, Send) == CROSSED;
  }

  /** Both DOWNs are delivered, and then both devices come up. */
  lemma LatchedMidway() returns (run: seq<System>, steps: seq<Step>)
    ensures Execution(run, steps) && Live(Last(run)) && Latched(Last(run))
    ensures Last(run).server.device && Last(run).client.device
  {
    ReachCrossed();
    Reach(CROSSED, Deliver(Client));
    var s1 := Do(CROSSED, Deliver(Client));
    Reach(s1, Deliver(Server));
    var s2 := Do(s1, Deliver(Server));
    Reach(s2, Device(Server, true));
    var s3 := Do(s2, Device(Server, true));
    Reach(s3, Device(Client, true));
    var s4 := Do(s3, Device(Client, true));
    run, steps :| Execution(run, steps) && run[0] == START && Last(run) == s4;
  }

  /**
   Freedom from the latch does not hold: when both devices are down together and come back up, the two
   DOWNs cross and the bridges stay quiet with both interfaces down between two devices that are up.
   */
  lemma LatchIsReachable() returns (run: seq<System>, steps: seq<Step>)
    ensures Execution(run, steps) && Quiescent(Last(run))
    ensures Last(run).server.device && Last(run).client.device
    ensures BothDown(Last(run)) && Latched(Last(run)) && !Agreement(Last(run))
  {
    run, steps := LatchedMidway();
    var run', steps' := Settles(run, steps);
    assert Behaviour(run'[|run| - 1..], steps'[|steps|..]);
    LatchIsForever(run'[|run| - 1..], steps'[|steps|..]);
    assert Last(run'[|run| - 1..]) == Last(run');
    run, steps := run', steps';
    AgreementAtQuiescence(run, steps);
  }
}
