/**
 Is the first observation after an interface comes back up always reported, as the comment of the reporter says?
 It is among the observations that are consumed; but the one in between, of the interface being down, may be
 replaced before it is consumed, and then the comeback is reported only if it changes the carrier.
 */
module LinkComeback {
  import opened Wrappers
  import opened Sequences
  import opened LinkReporter
  import opened LinkProtocol
  import opened LinkSafety
  import LinkConvergence

  // ---- What x has consumed ------------------------------------------------

  /** The observation that the step hands to the reporter of x. */
  function Consumed(s: System, step: Step, x: Side): Option<Observation>
    requires Enabled(s, step)
  {
    if step == Consume(x) then Some(s.At(x).event.value)
    else if step == Start(x) then Some(s.At(x).Flags())
    else None
  }

  /**
   Since the Link of x was opened: the last observation consumed of the interface being up; and since that one,
   whether an observation of it being down was consumed, and whether it was down at all.
   */
  datatype Past = Past(lastUp: Option<Observation>, sawDown: bool, wasDown: bool)

  const BLANK := Past(None, false, false)

  function Remember(past: Past, s: System, step: Step, s': System, x: Side): Past
    requires Enabled(s, step)
  {
    var o := Consumed(s, step, x);
    var next :=
      if Reopens(step, x) then BLANK
      else if o.None? then past
      else if o.value.adminUp then Past(o, false, false)
      else past.(sawDown := true);
    next.(wasDown := next.wasDown || !s'.At(x).admin)
  }

  function History(run: seq<System>, steps: seq<Step>, x: Side): Past
    requires |run| == |steps| + 1 && forall i :: 0 <= i < |steps| ==> Enabled(run[i], steps[i])
    decreases |steps|
  {
    if steps == [] then BLANK.(wasDown := !run[0].At(x).admin)
    else Remember(History(Init(run), Init(steps), x), run[|steps| - 1], Last(steps), Last(run), x)
  }

  /** The reporter of x returns a state to send for the observation. */
  predicate Reports(s: System, x: Side, o: Observation) {
    Emit(s.At(x).reported, o) != Unknown
  }

  // ---- When a comeback is reported ----------------------------------------

  /** The reporter's state is that of the last consumed observation. */
  predicate Reflects(s: System, x: Side, past: Past) {
    && s.At(x).reported == (if past.sawDown || past.lastUp.None? then Unknown else Report(past.lastUp.value))
    && (past.lastUp.Some? ==> past.lastUp.value.adminUp)
  }

  lemma ReflectsConsumed(s: System, step: Step, x: Side, past: Past)
    requires Enabled(s, step) && Reflects(s, x, past) && Consumed(s, step, x).Some?
    ensures Reflects(Do(s, step), x, Remember(past, s, step, Do(s, step), x))
  {
  }

  /** The reporter of x changes only when its Link is reopened or it consumes. */
  lemma ReporterStays(s: System, step: Step, x: Side)
    requires Enabled(s, step) && Consumed(s, step, x).None? && !Reopens(step, x)
    ensures Do(s, step).At(x).reported == s.At(x).reported
  {
  }

  lemma ReporterIsFresh(s: System, step: Step, x: Side)
    requires Enabled(s, step) && Reopens(step, x)
    ensures Do(s, step).At(x).reported == Unknown
  {
  }

  lemma ReflectsOther(s: System, step: Step, x: Side, past: Past)
    requires Enabled(s, step) && Reflects(s, x, past) && Consumed(s, step, x).None?
    ensures Reflects(Do(s, step), x, Remember(past, s, step, Do(s, step), x))
  {
    if Reopens(step, x) {
      ReporterIsFresh(s, step, x);
    } else {
      ReporterStays(s, step, x);
    }
  }

  lemma ReflectsStep(s: System, step: Step, x: Side, past: Past)
    requires Invariant(s) && Enabled(s, step) && Reflects(s, x, past)
    ensures Reflects(Do(s, step), x, Remember(past, s, step, Do(s, step), x))
  {
    if Consumed(s, step, x).Some? {
      ReflectsConsumed(s, step, x, past);
    } else {
      ReflectsOther(s, step, x, past);
    }
  }

  lemma {:induction false} ReporterReflects(run: seq<System>, steps: seq<Step>, x: Side)
    requires Execution(run, steps)
    ensures Reflects(Last(run), x, History(run, steps, x))
    decreases |steps|
  {
    if steps != [] {
      var run', steps' := Init(run), Init(steps);
      assert Execution(run', steps');
      ReporterReflects(run', steps', x);
      EndsInvariant(run', steps');
      ReflectsStep(run[|steps| - 1], Last(steps), x, History(run', steps', x));
    }
  }

  lemma EndsInvariant(run: seq<System>, steps: seq<Step>)
    requires Execution(run, steps)
    ensures Invariant(Last(run))
  {
    ExecutionInvariant(run, steps);
  }

  /**
   In every run, an observation of the interface being up that x consumes next is reported if and only if it is the
   first since the Link was opened, or one of it being down was consumed since the last, or the carrier differs. In
   particular this holds when the interface was down in between.
   */
  lemma ComebackIsReportedExactlyWhen(run: seq<System>, steps: seq<Step>, x: Side)
    requires Execution(run, steps) && Enabled(Last(run), Consume(x)) && Last(run).At(x).event.value.adminUp
    ensures var past, o := History(run, steps, x), Last(run).At(x).event.value;
            Reports(Last(run), x, o) <==> past.lastUp.None? || past.sawDown || past.lastUp.value.carrier != o.carrier
  {
    ReporterReflects(run, steps, x);
  }

  // ---- A comeback that is not reported ------------------------------------

  /** The run is an execution to s in which the server has that past. */
  ghost predicate LeadsTo(run: seq<System>, steps: seq<Step>, s: System, past: Past) {
    Execution(run, steps) && Last(run) == s && History(run, steps, Server) == past
  }

  lemma Extend(run: seq<System>, steps: seq<Step>, s: System, past: Past, step: Step, s': System, past': Past)
    returns (run': seq<System>, steps': seq<Step>)
    requires LeadsTo(run, steps, s, past) && Enabled(s, step)
    requires s' == Do(s, step) && past' == Remember(past, s, step, s', Server)
    ensures LeadsTo(run', steps', s', past')
  {
    run', steps' := LinkConvergence.Extend(run, steps, step);
    assert Init(steps') == steps && Last(steps') == step && run'[|steps|] == s;
  }

  const UP := Observation(true, true)
  const KNOWN := Past(Some(UP), false, false)
  const DIPPED := Past(Some(UP), false, true)

  /** An end that watches an interface that is up: its device, its state, and what it has sent. */
  function Watching(device: bool, reported: LinkState, wire: seq<LinkState>): End {
    End(device, true, true, true, false, [], None, reported, None, wire)
  }

  /** The server has queued its report of UP; the client has sent the messages. */
  function Serving(server: End, client: End): System {
    System(server, client, true, true, [])
  }

  const IDLE := End(true, true, false, false, false, [], None, Unknown, None, [])
  const SERVER := Watching(true, Up, []).(slot := Some(Up))

  /** The server opens its Link and reads that the interface is up. */
  lemma ServerStarts() returns (run: seq<System>, steps: seq<Step>)
    ensures LeadsTo(run, steps, System(Watching(true, Up, []), IDLE.(device := false), false, false, []), KNOWN)
  {
    var client := IDLE.(device := false);
    var s0 := System(IDLE, client, false, false, []);
    var s1 := s0.(server := IDLE.(open := true));
    run, steps := [s0], [];
    run, steps := Extend(run, steps, s0, BLANK, Attach, s1, BLANK);
    run, steps := Extend(run, steps, s1, BLANK, Start(Server), s0.(server := Watching(true, Up, [])), KNOWN);
  }

  /** The client connects and opens its Link. */
  lemma ClientConnects() returns (run: seq<System>, steps: seq<Step>)
    ensures LeadsTo(run, steps, System(Watching(true, Up, []), IDLE.(device := false, open := true), true, false, []), KNOWN)
  {
    run, steps := ServerStarts();
    var s2 := System(Watching(true, Up, []), IDLE.(device := false), false, false, []);
    var s3 := s2.(connected := true, client := IDLE.(device := false, open := true));
    run, steps := Extend(run, steps, s2, KNOWN, Connect, s3, KNOWN);
  }

  /** It sends DOWN, for its device is down, and the server's handler subscribes. */
  lemma ClientStarts() returns (run: seq<System>, steps: seq<Step>)
    ensures LeadsTo(run, steps, Serving(SERVER, Watching(false, Down, [Down])), KNOWN)
  {
    run, steps := ClientConnects();
    var s3 := System(Watching(true, Up, []), IDLE.(device := false, open := true), true, false, []);
    var s4 := s3.(client := Watching(false, Down, [Down]));
    run, steps := Extend(run, steps, s3, KNOWN, Start(Client), s4, KNOWN);
    run, steps := Extend(run, steps, s4, KNOWN, Subscribe, Serving(SERVER, Watching(false, Down, [Down])), KNOWN);
  }

  /** The device beyond the client comes up. */
  lemma DeviceComesUp() returns (run: seq<System>, steps: seq<Step>)
    ensures LeadsTo(run, steps, Serving(SERVER, Watching(true, Down, [Down]).(notes := [UP])), KNOWN)
  {
    run, steps := ClientStarts();
    var s5 := Serving(SERVER, Watching(false, Down, [Down]));
    var s6 := Serving(SERVER, Watching(true, Down, [Down]).(dirty := true));
    var s7 := Serving(SERVER, Watching(true, Down, [Down]).(notes := [UP]));
    run, steps := Extend(run, steps, s5, KNOWN, Device(Client, true), s6, KNOWN);
    run, steps := Extend(run, steps, s6, KNOWN, Notify(Client), s7, KNOWN);
  }

  /** The client sends UP after its DOWN. */
  lemma BothSent() returns (run: seq<System>, steps: seq<Step>)
    ensures LeadsTo(run, steps, Serving(SERVER, Watching(true, Up, [Down, Up])), KNOWN)
  {
    run, steps := DeviceComesUp();
    var s7 := Serving(SERVER, Watching(true, Down, [Down]).(notes := [UP]));
    var s8 := Serving(SERVER, Watching(true, Down, [Down]).(event := Some(UP)));
    run, steps := Extend(run, steps, s7, KNOWN, Publish(Client), s8, KNOWN);
    assert [Down] + [Up] == [Down, Up];
    run, steps := Extend(run, steps, s8, KNOWN, Consume(Client), Serving(SERVER, Watching(true, Up, [Down, Up])), KNOWN);
  }

  /** The server applies the DOWN. */
  lemma TakenDown() returns (run: seq<System>, steps: seq<Step>)
    ensures LeadsTo(run, steps, Serving(SERVER.(admin := false, dirty := true), Watching(true, Up, [Up])), DIPPED)
  {
    run, steps := BothSent();
    var s9 := Serving(SERVER, Watching(true, Up, [Down, Up]));
    var s10 := Serving(SERVER.(admin := false, dirty := true), Watching(true, Up, [Up]));
    assert [Down, Up][1..] == [Up];
    run, steps := Extend(run, steps, s9, KNOWN, Deliver(Server), s10, DIPPED);
  }

  /** It observes its interface being down. */
  lemma DownObserved() returns (run: seq<System>, steps: seq<Step>)
    ensures LeadsTo(run, steps, Serving(SERVER.(admin := false, event := Some(OFF)), Watching(true, Up, [Up])), DIPPED)
  {
    run, steps := TakenDown();
    var client := Watching(true, Up, [Up]);
    var s10 := Serving(SERVER.(admin := false, dirty := true), client);
    var s11 := Serving(SERVER.(admin := false, notes := [OFF]), client);
    var s12 := Serving(SERVER.(admin := false, event := Some(OFF)), client);
    run, steps := Extend(run, steps, s10, DIPPED, Notify(Server), s11, DIPPED);
    run, steps := Extend(run, steps, s11, DIPPED, Publish(Server), s12, DIPPED);
  }

  /** It applies the UP. */
  lemma TakenUp() returns (run: seq<System>, steps: seq<Step>)
    ensures LeadsTo(run, steps, Serving(SERVER.(event := Some(OFF), dirty := true), Watching(true, Up, [])), DIPPED)
  {
    run, steps := DownObserved();
    var s12 := Serving(SERVER.(admin := false, event := Some(OFF)), Watching(true, Up, [Up]));
    var s13 := Serving(SERVER.(event := Some(OFF), dirty := true), Watching(true, Up, []));
    assert [Up][1..] == [];
    run, steps := Extend(run, steps, s12, DIPPED, Deliver(Server), s13, DIPPED);
  }

  /** The observation of the interface being up again replaces the one before. */
  lemma UpAgain() returns (run: seq<System>, steps: seq<Step>)
    ensures LeadsTo(run, steps, Serving(SERVER.(event := Some(UP)), Watching(true, Up, [])), DIPPED)
  {
    run, steps := TakenUp();
    var client := Watching(true, Up, []);
    var s13 := Serving(SERVER.(event := Some(OFF), dirty := true), client);
    var s14 := Serving(SERVER.(event := Some(OFF), notes := [UP]), client);
    run, steps := Extend(run, steps, s13, DIPPED, Notify(Server), s14, DIPPED);
    run, steps := Extend(run, steps, s14, DIPPED, Publish(Server), Serving(SERVER.(event := Some(UP)), client), DIPPED);
  }

  /**
   The interface of the server is taken down and up again; the next observation the server consumes is that it is up,
   and nothing is reported.
   */
  lemma ComebackMayGoUnreported() returns (run: seq<System>, steps: seq<Step>)
    ensures Execution(run, steps) && Enabled(Last(run), Consume(Server))
    ensures History(run, steps, Server).lastUp.Some? && History(run, steps, Server).wasDown
    ensures var s := Last(run);
            && s.server.event.value.adminUp && !Reports(s, Server, s.server.event.value)
            && Do(s, Consume(Server)) == s.(server := s.server.(event := None))
  {
    run, steps := UpAgain();
  }
}
