/**
 The link-state protocol between the two bridges of a Wire (bridge/link.go,
 bridge/bridge.go, bridge/client.go), as a state machine over atomic steps.

 A device sits beyond each bridge interface. An interface has carrier exactly while
 it and the device beyond it are both admin up. A change of the flags of an
 interface travels: kernel notification (`notes`), the `events` channel of capacity
 one (`event`), the reporter (`reported`), the server's per-stream channel of capacity
 one (`slot`), the stream (`wire`), and finally `SetAdminUp` at the other end.
 */
module LinkProtocol {
  import opened Wrappers
  import opened LinkReporter

  datatype Side = Server | Client {
    function Other(): Side {
      if Server? then Client else Server
    }
  }

  /** One bridge end. `dirty`: the flags changed and the kernel has not notified it yet. */
  datatype End = End(
    device: bool,
    admin: bool,
    open: bool,
    started: bool,
    dirty: bool,
    notes: seq<Observation>,
    event: Option<Observation>,
    reported: LinkState,
    slot: Option<LinkState>,
    wire: seq<LinkState>
  ) {
    function Flags(): Observation {
      Observation(admin, admin && device)
    }

    /** Some observation was captured but not consumed by the reporter. */
    predicate Observing() {
      notes != [] || event.Some?
    }

    /** The newest such observation. */
    function Newest(): Observation
      requires Observing()
    {
      if notes != [] then notes[|notes| - 1] else event.value
    }

    function SetDevice(up: bool): End {
      var e := this.(device := up);
      e.(dirty := dirty || e.Flags() != Flags())
    }

    function SetAdmin(up: bool): End {
      var e := this.(admin := up);
      e.(dirty := dirty || e.Flags() != Flags())
    }

    /** A freshly opened Link: subscribed, nothing notified, nothing reported. */
    function Opened(): End {
      this.(open := true, started := false, dirty := false, notes := [], event := None, reported := Unknown)
    }

    function Closed(): End {
      this.(open := false, started := false, notes := [], event := None, reported := Unknown)
    }
  }

  /**
   `connected`: the client runs a stream. `subscribed`: the server's handler for it
   called `subscribeLinkState`. `late`: messages of the client's previous stream that the
   server may still apply until then.
   */
  datatype System = System(server: End, client: End, connected: bool, subscribed: bool, late: seq<LinkState>) {
    function At(x: Side): End {
      if x.Server? then server else client
    }

    function With(x: Side, e: End): System {
      if x.Server? then this.(server := e) else this.(client := e)
    }
  }

  datatype Step =
    | Device(x: Side, up: bool)  // the device beyond x goes admin up or down
    | Notify(x: Side)            // the kernel captures the flags of x
    | Publish(x: Side)           // watch: publishLatest onto the events channel
    | Consume(x: Side)           // the event loop of x hands an event to the reporter
    | Send                       // the server's egress loop takes the state from its channel
    | Deliver(x: Side)           // the end x receives a message and sets its interface
    | Connect                    // the client opens its Link and starts a stream
    | Start(x: Side)             // x reads Current() and starts its event loop
    | Subscribe                  // the server's handler subscribes to link state
    | DeliverLate                // the server applies a message of the previous stream
    | Break                      // the stream ends and the client closes its Link
    | Attach                     // the server creates a demux and opens its Link
    | Detach                     // the server's demux terminates and closes its Link
  {
    /** A step on the way from the flags of one end to its reports. */
    predicate Reporting() {
      Device? || Notify? || Publish? || Consume? || Start?
    }

    predicate Delivery() {
      Deliver? || DeliverLate?
    }
  }

  /** Nothing is open yet; devices and interfaces are in any state. */
  predicate Initial(s: System) {
    && !s.connected && !s.subscribed && s.late == []
    && Blank(s.server) && Blank(s.client)
  }

  predicate Blank(e: End) {
    e == End(e.device, e.admin, false, false, e.dirty, [], None, Unknown, None, [])
  }

  predicate Enabled(s: System, step: Step) {
    match step
    case Device(_, _) => true
    case Notify(x) => s.At(x).open
    case Publish(x) => s.At(x).notes != []
    case Consume(x) => s.At(x).started && s.At(x).event.Some?
    case Send => s.server.slot.Some?
    case Deliver(x) => s.At(x.Other()).wire != [] && s.subscribed
    case Connect => !s.connected
    case Start(x) => s.At(x).open && !s.At(x).started
    case Subscribe => s.connected && !s.subscribed && s.server.started
    case DeliverLate => s.late != []
    case Break => s.connected
    case Attach => !s.server.open && !s.subscribed
    case Detach => s.server.open
  }

  /** A report leaves x: the client sends it, the server hands it to the subscribed stream if there is one. */
  function Emitted(s: System, x: Side, state: LinkState): System {
    if state == Unknown then s
    else if x.Client? then s.(client := s.client.(wire := s.client.wire + [state]))
    else if s.subscribed then s.(server := s.server.(slot := Some(state)))
    else s
  }

  /** `linkReporter.observe`, then forwarding what it returned. */
  function Observe(s: System, x: Side, o: Observation): System {
    var e := s.At(x);
    Emitted(s.With(x, e.(reported := Report(o))), x, Emit(e.reported, o))
  }

  function Do(s: System, step: Step): System
    requires Enabled(s, step)
  {
    match step
    case Device(x, up) => s.With(x, s.At(x).SetDevice(up))
    case Notify(x) =>
      var e := s.At(x);
      s.With(x, e.(notes := e.notes + [e.Flags()], dirty := false))
    case Publish(x) =>
      var e := s.At(x);
      s.With(x, e.(event := Some(e.notes[0]), notes := e.notes[1..]))
    case Consume(x) =>
      var e := s.At(x);
      Observe(s.With(x, e.(event := None)), x, e.event.value)
    case Send =>
      var e := s.server;
      s.(server := e.(slot := None, wire := e.wire + [e.slot.value]))
    case Deliver(x) =>
      var sender := s.At(x.Other());
      var s' := s.With(x.Other(), sender.(wire := sender.wire[1..]));
      s'.With(x, s'.At(x).SetAdmin(sender.wire[0] == Up))
    case Connect => s.(connected := true, client := s.client.Opened())
    case Start(x) =>
      var e := s.At(x);
      Observe(s.With(x, e.(started := true)), x, e.Flags())
    case Subscribe =>
      var e := s.server;
      s.(subscribed := true, late := [],
         server := e.(slot := if e.reported == Unknown then None else Some(e.reported)))
    case DeliverLate => s.(late := s.late[1..], server := s.server.SetAdmin(s.late[0] == Up))
    case Break =>
      s.(connected := false, subscribed := false, late := s.late + s.client.wire,
         client := s.client.Closed().(wire := []), server := s.server.(slot := None, wire := []))
    case Attach => s.(server := s.server.Opened())
    case Detach => s.(server := s.server.Closed())
  }

  /** The step opens or closes the Link of x, with a fresh reporter. */
  predicate Reopens(step: Step, x: Side) {
    if x.Server? then step.Attach? || step.Detach? else step.Connect? || step.Break?
  }

  // ---- Runs ---------------------------------------------------------------

  /** `run` is a sequence of states, each the result of the step between them. */
  ghost predicate Behaviour(run: seq<System>, steps: seq<Step>) {
    && |run| == |steps| + 1
    && forall i :: 0 <= i < |steps| ==> Enabled(run[i], steps[i]) && run[i + 1] == Do(run[i], steps[i])
  }

  /** A behaviour from an initial state. */
  ghost predicate Execution(run: seq<System>, steps: seq<Step>) {
    Behaviour(run, steps) && Initial(run[0])
  }

  // ---- What is in flight --------------------------------------------------

  /** The stream carries reports of x. */
  predicate Linked(s: System, x: Side) {
    s.At(x).started && (if x.Server? then s.subscribed else s.connected)
  }

  /** The state the other end is heading for: the newest report of x in flight, or what it was last set to. */
  function Heading(s: System, x: Side): LinkState {
    var e := s.At(x);
    if e.slot.Some? then e.slot.value
    else if e.wire != [] then e.wire[|e.wire| - 1]
    else AsLinkState(s.At(x.Other()).admin)
  }

  /** All observations are consumed and all messages applied, over a working stream. */
  predicate Quiescent(s: System) {
    && s.subscribed && s.late == []
    && Still(s.server) && Still(s.client)
  }

  predicate Still(e: End) {
    e.started && !e.dirty && e.notes == [] && e.event == None && e.slot == None && e.wire == []
  }
}
