/**
 The one way the link-state protocol goes wrong: both interfaces admin down with nothing
 left to bring them back. The state is absorbing, it is reachable, and it is entered
 only when two DOWN reports cross.
 */
module LinkLatch {
  import opened Wrappers
  import opened Sequences
  import opened LinkReporter
  import opened LinkProtocol
  import opened LinkSafety

  predicate BothUp(s: System) {
    s.server.admin && s.client.admin
  }

  predicate BothDown(s: System) {
    !s.server.admin && !s.client.admin
  }

  // ---- The latched state is absorbing -------------------------------------

  /** No UP, and no observation of an interface that was up, is under way from e. */
  predicate Silent(e: End) {
    && (e.event.Some? ==> !e.event.value.adminUp)
    && (forall i :: 0 <= i < |e.notes| ==> !e.notes[i].adminUp)
    && e.slot != Some(Up)
    && NoUp(e.wire)
  }

  predicate NoUp(messages: seq<LinkState>) {
    forall i :: 0 <= i < |messages| ==> messages[i] != Up
  }

  predicate Latched(s: System) {
    && BothDown(s)
    && Silent(s.server) && Silent(s.client)
    && s.server.reported != Up
    && NoUp(s.late)
  }

  lemma LatchedReporting(s: System, step: Step)
    requires Latched(s) && Enabled(s, step)
    requires step.Reporting()
    ensures Latched(Do(s, step))
  {
  }

  lemma LatchedMessage(s: System, step: Step)
    requires Latched(s) && Enabled(s, step) && (step.Send? || step.Subscribe?)
    ensures Latched(Do(s, step))
  {
  }

  lemma LatchedDeliver(s: System, x: Side)
    requires Latched(s) && Enabled(s, Deliver(x))
    ensures Latched(Do(s, Deliver(x)))
  {
  }

  lemma LatchedDeliverLate(s: System)
    requires Latched(s) && Enabled(s, DeliverLate)
    ensures Latched(Do(s, DeliverLate))
  {
  }

  lemma LatchedLink(s: System, step: Step)
    requires Latched(s) && Enabled(s, step)
    requires step.Connect? || step.Break? || step.Attach? || step.Detach?
    ensures Latched(Do(s, step))
  {
  }

  lemma LatchedStep(s: System, step: Step)
    requires Latched(s) && Enabled(s, step)
    ensures Latched(Do(s, step))
  {
    if step.Reporting() {
      LatchedReporting(s, step);
    } else if step.Send? || step.Subscribe? {
      LatchedMessage(s, step);
    } else if step.Deliver? {
      LatchedDeliver(s, step.x);
    } else if step.DeliverLate? {
      LatchedDeliverLate(s);
    } else {
      LatchedLink(s, step);
    }
  }

  /** Once latched, no device change, reconnect or demux restart ever brings an interface back up. */
  lemma {:induction false} LatchIsForever(run: seq<System>, steps: seq<Step>)
    requires Behaviour(run, steps) && Latched(run[0])
    ensures forall i :: 0 <= i < |run| ==> Latched(run[i]) && BothDown(run[i])
    decreases |steps|
  {
    if |steps| > 0 {
      assert Behaviour(Init(run), Init(steps));
      LatchIsForever(Init(run), Init(steps));
      var s, step := run[|steps| - 1], Last(steps);
      assert s == Init(run)[|steps| - 1];
      LatchedStep(s, step);
      forall i | 0 <= i < |run| ensures Latched(run[i]) {
        assert i < |steps| ==> run[i] == Init(run)[i];
      }
    }
  }

  lemma QuiescentIsLatched(s: System)
    requires Invariant(s) && Quiescent(s) && BothDown(s)
    ensures Latched(s)
  {
    assert ReporterIsCurrent(s.server);
  }

  /** A quiescent state with both interfaces down is latched, so disagreement at quiescence is permanent. */
  lemma QuiescentBothDownIsLatched(run: seq<System>, steps: seq<Step>)
    requires Execution(run, steps) && Quiescent(Last(run)) && BothDown(Last(run))
    ensures Latched(Last(run))
  {
    ExecutionInvariant(run, steps);
    QuiescentIsLatched(Last(run));
  }

  // ---- How the latch is entered -------------------------------------------

  /** A DOWN of y is still under way to the other end, as an observation, a report to repeat or a message. */
  predicate DownUnderWay(s: System, y: Side) {
    var e := s.At(y);
    || (e.event.Some? && Report(e.event.value) == Down)
    || (exists i :: 0 <= i < |e.notes| && Report(e.notes[i]) == Down)
    || (y.Server? && !s.subscribed && e.reported == Down)
    || e.slot == Some(Down)
    || Down in e.wire
    || (y.Client? && Down in s.late)
  }

  /** Every message says something. */
  predicate Meaningful(s: System) {
    && NoUnknown(s.server.wire) && NoUnknown(s.client.wire) && NoUnknown(s.late)
    && s.server.slot != Some(Unknown)
  }

  predicate NoUnknown(messages: seq<LinkState>) {
    forall i :: 0 <= i < |messages| ==> messages[i] != Unknown
  }

  /** What follows from no DOWN of y being under way: every message of y is an UP. */
  predicate Clear(s: System, y: Side) {
    var e := s.At(y);
    && (e.event.Some? ==> Report(e.event.value) != Down)
    && (forall i :: 0 <= i < |e.notes| ==> Report(e.notes[i]) != Down)
    && (y.Server? && !s.subscribed ==> e.reported != Down)
    && (e.slot.Some? ==> e.slot.value == Up)
    && AllUp(e.wire)
    && (y.Client? ==> AllUp(s.late))
  }

  lemma MeaningfulObserve(s: System, x: Side, o: Observation)
    requires Meaningful(s)
    ensures Meaningful(Observe(s, x, o))
  {
  }

  lemma MeaningfulReporting(s: System, step: Step)
    requires Meaningful(s) && Enabled(s, step) && step.Reporting()
    ensures Meaningful(Do(s, step))
  {
    var e := s.At(step.x);
    if step.Consume? {
      MeaningfulObserve(s.With(step.x, e.(event := None)), step.x, e.event.value);
    } else if step.Start? {
      MeaningfulObserve(s.With(step.x, e.(started := true)), step.x, e.Flags());
    }
  }

  lemma MeaningfulStep(s: System, step: Step)
    requires Meaningful(s) && Enabled(s, step)
    ensures Meaningful(Do(s, step))
  {
    if step.Reporting() {
      MeaningfulReporting(s, step);
    }
  }

  lemma {:induction false} ExecutionMeaningful(run: seq<System>, steps: seq<Step>)
    requires Execution(run, steps)
    ensures forall i :: 0 <= i < |run| ==> Meaningful(run[i]) && Invariant(run[i])
    decreases |steps|
  {
    ExecutionInvariant(run, steps);
    if |steps| > 0 {
      assert Execution(Init(run), Init(steps));
      ExecutionMeaningful(Init(run), Init(steps));
      assert run[|steps| - 1] == Init(run)[|steps| - 1];
      MeaningfulStep(run[|steps| - 1], Last(steps));
      forall i | 0 <= i < |run| ensures Meaningful(run[i]) {
        assert i < |steps| ==> run[i] == Init(run)[i];
      }
    }
  }

  lemma ClearUnlessDown(s: System, y: Side)
    requires Meaningful(s) && s.client.slot == None && !DownUnderWay(s, y)
    ensures Clear(s, y)
  {
    var e := s.At(y);
    assert forall i :: 0 <= i < |e.wire| ==> e.wire[i] in e.wire;
    assert forall i :: 0 <= i < |s.late| ==> s.late[i] in s.late;
  }

  /** y is down, the other end is up, and nothing under way from y will take the other end down. */
  predicate OneSided(s: System, y: Side) {
    !s.At(y).admin && s.At(y.Other()).admin && Clear(s, y)
  }

  lemma OneSidedReporting(s: System, step: Step, y: Side)
    requires OneSided(s, y) && Enabled(s, step) && step.Reporting()
    ensures OneSided(Do(s, step), y)
  {
    if step.x == y {
      OneSidedOwnReporting(s, step, y);
    } else {
      assert Do(s, step).At(y) == s.At(y);
    }
  }

  /** Observing anything but a lost carrier puts no DOWN under way. */
  lemma OneSidedObserve(s: System, y: Side, o: Observation)
    requires OneSided(s, y) && Report(o) != Down
    ensures OneSided(Observe(s, y, o), y)
  {
  }

  lemma OneSidedOwnReporting(s: System, step: Step, y: Side)
    requires OneSided(s, y) && Enabled(s, step) && step.Reporting() && step.x == y
    ensures OneSided(Do(s, step), y)
  {
    var e := s.At(y);
    assert Report(e.Flags()) == Unknown;
    if step.Consume? {
      OneSidedObserve(s.With(y, e.(event := None)), y, e.event.value);
    } else if step.Start? {
      OneSidedObserve(s.With(y, e.(started := true)), y, e.Flags());
    }
  }

  lemma OneSidedStreamStep(s: System, step: Step, y: Side)
    requires Invariant(s) && OneSided(s, y) && Enabled(s, step)
    requires !step.Reporting() && !step.Delivery()
    ensures OneSided(Do(s, step), y)
  {
    if step.Break? && y.Server? {
      assert PeerFollows(s, Server);
    }
  }

  lemma OneSidedDelivery(s: System, step: Step, y: Side)
    requires OneSided(s, y) && Enabled(s, step)
    requires step.Delivery()
    ensures Do(s, step).At(y.Other()).admin
    ensures Do(s, step).At(y).admin || OneSided(Do(s, step), y)
  {
  }

  lemma OneSidedStep(s: System, step: Step, y: Side)
    requires Invariant(s) && OneSided(s, y) && Enabled(s, step)
    ensures BothUp(Do(s, step)) || OneSided(Do(s, step), y)
  {
    if step.Delivery() {
      OneSidedDelivery(s, step, y);
    } else if step.Reporting() {
      OneSidedReporting(s, step, y);
    } else {
      OneSidedStreamStep(s, step, y);
    }
  }

  /** From a one-sided state the far interface stays up until both are up again. */
  lemma {:induction false} OneSidedRun(run: seq<System>, steps: seq<Step>, y: Side, k: nat)
    requires Behaviour(run, steps) && k < |run|
    requires forall i :: 0 <= i < |run| ==> Invariant(run[i])
    requires OneSided(run[k], y)
    requires forall j :: k < j < |run| ==> !BothUp(run[j])
    ensures OneSided(Last(run), y)
    decreases |run| - k
  {
    if k < |steps| {
      OneSidedStep(run[k], steps[k], y);
      OneSidedRun(run, steps, y, k + 1);
    }
  }

  /** The last state of the run in which both interfaces are up. */
  lemma {:induction false} LastBothUp(run: seq<System>, from: nat) returns (k: nat)
    requires from < |run| && BothUp(run[from])
    ensures from <= k < |run| && BothUp(run[k])
    ensures forall j :: k < j < |run| ==> !BothUp(run[j])
    decreases |run| - from
  {
    if j :| from < j < |run| && BothUp(run[j]) {
      k := LastBothUp(run, j);
    } else {
      k := from;
    }
  }

  predicate SameAdmin(s: System, s': System) {
    s'.server.admin == s.server.admin && s'.client.admin == s.client.admin
  }

  lemma ObserveSetsNothing(s: System, x: Side, o: Observation)
    ensures SameAdmin(s, Observe(s, x, o))
  {
  }

  lemma ReportingSetsNothing(s: System, step: Step)
    requires Enabled(s, step) && step.Reporting()
    ensures SameAdmin(s, Do(s, step))
  {
    var e := s.At(step.x);
    if step.Consume? {
      ObserveSetsNothing(s.With(step.x, e.(event := None)), step.x, e.event.value);
    } else if step.Start? {
      ObserveSetsNothing(s.With(step.x, e.(started := true)), step.x, e.Flags());
    }
  }

  lemma StreamSetsNothing(s: System, step: Step)
    requires Enabled(s, step) && !step.Reporting() && !step.Delivery()
    ensures SameAdmin(s, Do(s, step))
  {
  }

  lemma OnlyDeliveriesSet(s: System, step: Step)
    requires Enabled(s, step) && !step.Delivery()
    ensures SameAdmin(s, Do(s, step))
  {
    if step.Reporting() {
      ReportingSetsNothing(s, step);
    } else {
      StreamSetsNothing(s, step);
    }
  }

  /** A delivery sets one interface and leaves the reports of its end alone. */
  lemma DeliverySets(s: System, step: Step, y: Side)
    requires Enabled(s, step) && (step == Deliver(y) || (step == DeliverLate && y == Server))
    ensures Do(s, step).At(y.Other()).admin == s.At(y.Other()).admin
    ensures Clear(s, y) ==> Clear(Do(s, step), y)
  {
  }

  /** Only a delivery takes an interface down, one end at a time, and it leaves that end's own reports alone. */
  lemma TakenDown(s: System, step: Step) returns (y: Side)
    requires BothUp(s) && Enabled(s, step) && !BothUp(Do(s, step))
    ensures step == Deliver(y) || (step == DeliverLate && y == Server)
    ensures !Do(s, step).At(y).admin && Do(s, step).At(y.Other()).admin
    ensures Clear(s, y) ==> Clear(Do(s, step), y)
  {
    if !step.Delivery() {
      OnlyDeliveriesSet(s, step);
    }
    y := if step.Deliver? then step.x else Server;
    DeliverySets(s, step, y);
  }

  /**
   However a run goes from both interfaces up to both down, there is a moment when both were up for
   the last time, a received DOWN then took one end y down, and a DOWN of y was at that very moment
   already under way to the other end: two DOWNs crossed.
   */
  lemma LatchNeedsCrossedDowns(run: seq<System>, steps: seq<Step>, from: nat) returns (k: nat, y: Side)
    requires Execution(run, steps)
    requires from < |run| && BothUp(run[from]) && BothDown(Last(run))
    ensures from <= k < |steps| && BothUp(run[k])
    ensures forall j :: k < j < |run| ==> !BothUp(run[j])
    ensures steps[k] == Deliver(y) || (steps[k] == DeliverLate && y == Server)
    ensures !run[k + 1].At(y).admin && DownUnderWay(run[k], y)
  {
    ExecutionMeaningful(run, steps);
    k := LastBothUp(run, from);
    assert run[k + 1] == Do(run[k], steps[k]);
    y := TakenDown(run[k], steps[k]);
    if !DownUnderWay(run[k], y) {
      ClearUnlessDown(run[k], y);
      OneSidedRun(run, steps, y, k + 1);
      assert false;
    }
  }

  // ---- One steady device --------------------------------------------------

  /** The interface beyond the steady device's bridge is up, or will be before anything can take the near one down. */
  predicate FarUpOrOneSided(s: System, far: Side) {
    s.At(far).admin || OneSided(s, far)
  }

  lemma {:induction false} FarStaysUpOrOneSided(run: seq<System>, steps: seq<Step>, x: Side, n: nat)
    requires Execution(run, steps) && n < |run| && !BothDown(run[0])
    requires forall i :: 0 <= i < |run| ==> run[i].At(x).device
    ensures OnlyUp(run[n], x) && FarUpOrOneSided(run[n], x.Other())
  {
    if n > 0 {
      FarStaysUpOrOneSided(run, steps, x, n - 1);
      FarStep(run, steps, x, n - 1);
    }
  }

  lemma FarStep(run: seq<System>, steps: seq<Step>, x: Side, n: nat)
    requires Execution(run, steps) && n < |steps| && run[n].At(x).device
    requires OnlyUp(run[n], x) && FarUpOrOneSided(run[n], x.Other())
    ensures OnlyUp(run[n + 1], x) && FarUpOrOneSided(run[n + 1], x.Other())
  {
    ExecutionInvariant(run, steps);
    assert Invariant(run[n]);
    SteadyStep(run[n], steps[n], x);
    if !run[n].At(x.Other()).admin {
      OneSidedStep(run[n], steps[n], x.Other());
    }
  }

  lemma BothDownIsLatched(s: System)
    requires Initial(s) && BothDown(s)
    ensures Latched(s)
  {
  }

  /**
   While the device beyond x stays up: a far interface that started up is up throughout, so the bridges cannot latch;
   and at quiescence the near interface is up exactly when the other device is, if and only if not both interfaces
   started down or the other device is down.
   */
  lemma SteadyDevice(run: seq<System>, steps: seq<Step>, x: Side)
    requires Execution(run, steps)
    requires forall i :: 0 <= i < |run| ==> run[i].At(x).device
    ensures run[0].At(x.Other()).admin ==> forall i :: 0 <= i < |run| ==> run[i].At(x.Other()).admin
    ensures Quiescent(Last(run)) ==>
              (Last(run).At(x).admin == Last(run).At(x.Other()).device
               <==> !BothDown(run[0]) || !Last(run).At(x.Other()).device)
  {
    if run[0].At(x.Other()).admin {
      NeverTakenDown(run, steps, x);
      forall i | 0 <= i < |run| ensures run[i].At(x.Other()).admin {
        StaysUp(run, steps, x.Other(), i);
      }
    }
    if Quiescent(Last(run)) {
      SteadyAtQuiescence(run, steps, x);
    }
  }

  lemma {:induction false} StaysUp(run: seq<System>, steps: seq<Step>, x: Side, n: nat)
    requires |run| == |steps| + 1 && n < |run| && run[0].At(x).admin
    requires forall i :: 0 <= i < |steps| && run[i].At(x).admin ==> run[i + 1].At(x).admin
    ensures run[n].At(x).admin
  {
    if n > 0 {
      StaysUp(run, steps, x, n - 1);
    }
  }

  lemma SteadyAtQuiescence(run: seq<System>, steps: seq<Step>, x: Side)
    requires Execution(run, steps) && Quiescent(Last(run))
    requires forall i :: 0 <= i < |run| ==> run[i].At(x).device
    ensures Last(run).At(x).admin == Last(run).At(x.Other()).device
            <==> !BothDown(run[0]) || !Last(run).At(x.Other()).device
  {
    if BothDown(run[0]) {
      BothDownIsLatched(run[0]);
      LatchIsForever(run, steps);
    } else {
      FarStaysUpOrOneSided(run, steps, x, |steps|);
      AgreementAtQuiescence(run, steps);
      assert x == x.Other().Other();
    }
  }
}
