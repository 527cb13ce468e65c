/**
 `InterfaceDemux` (bridge/bridge.go): one reader of an interface fans captured frames out to
 bounded subscriber channels, which come and go until the reader tears everything down.

 The atomic steps are the sections guarded by `mu`. The class below performs each section as the
 source does, statement by statement, and its contract is the corresponding step function; the
 lemmas are about every interleaving of the steps.
 */
module Demux {
  import opened Bytes
  import opened Sequences

  type Frame = seq<Byte>

  const CHANNEL_BUFFER_CAP: nat := 1000
  const MAX_SUBSCRIBERS: nat := 32

  /** A channel handed to a subscriber: `taken` is what the subscriber received, `closes` how often it was closed. */
  datatype Chan = Chan(queue: seq<Frame>, taken: seq<Frame>, closes: nat) {
    predicate Full() {
      |queue| >= CHANNEL_BUFFER_CAP
    }

    /** A non-blocking send. */
    function Offer(f: Frame): Chan {
      if Full() then this else this.(queue := queue + [f])
    }

    function Contents(): seq<Frame> {
      taken + queue
    }
  }

  /** `chans` lists every channel ever handed out; `captured` and `offered` record history. */
  datatype State = State(
    chans: seq<Chan>,
    listeners: set<nat>,
    closed: bool,
    cancelled: bool,
    dropped: nat,
    captured: seq<Frame>,
    offered: nat
  ) {
    function FullListeners(): set<nat> {
      set i | i in listeners && i < |chans| && chans[i].Full()
    }
  }

  datatype Step =
    | Subscribe
    | Unsubscribe(ch: nat)
    | Broadcast(f: Frame)
    | Take(ch: nat)
    | Cancel
    | Teardown

  predicate CanSubscribe(s: State) {
    !s.closed && !s.cancelled && |s.listeners| < MAX_SUBSCRIBERS
  }

  predicate Enabled(s: State, step: Step) {
    match step
    case Subscribe => true
    case Unsubscribe(ch) => ch < |s.chans|
    case Broadcast(_) => !s.closed
    case Take(ch) => ch < |s.chans| && s.chans[ch].queue != []
    case Cancel => true
    case Teardown => !s.closed
  }

  function CloseAll(chans: seq<Chan>, which: set<nat>): seq<Chan> {
    seq(|chans|, i requires 0 <= i < |chans| => if i in which then chans[i].(closes := chans[i].closes + 1) else chans[i])
  }

  function OfferAll(chans: seq<Chan>, which: set<nat>, f: Frame): seq<Chan> {
    seq(|chans|, i requires 0 <= i < |chans| => if i in which then chans[i].Offer(f) else chans[i])
  }

  function Do(s: State, step: Step): State
    requires Enabled(s, step)
  {
    match step
    case Subscribe =>
      if CanSubscribe(s)
      then s.(chans := s.chans + [Chan([], [], 0)], listeners := s.listeners + {|s.chans|})
      else s
    case Unsubscribe(ch) =>
      if ch in s.listeners
      then s.(chans := CloseAll(s.chans, {ch}), listeners := s.listeners - {ch})
      else s
    case Broadcast(f) =>
      s.(chans := OfferAll(s.chans, s.listeners, f), dropped := s.dropped + |s.FullListeners()|,
         captured := s.captured + [f], offered := s.offered + |s.listeners|)
    case Take(ch) =>
      var c := s.chans[ch];
      s.(chans := s.chans[ch := c.(queue := c.queue[1..], taken := c.taken + [c.queue[0]])])
    case Cancel => s.(cancelled := true)
    case Teardown =>
      s.(chans := CloseAll(s.chans, s.listeners), listeners := {}, closed := true, cancelled := true)
  }

  /** Visiting one more channel extends what was done so far. */
  lemma OfferNext(chans: seq<Chan>, done: set<nat>, ch: nat, f: Frame)
    requires ch < |chans| && ch !in done
    ensures OfferAll(chans, done, f)[ch] == chans[ch]
    ensures OfferAll(chans, done, f)[ch := chans[ch].Offer(f)] == OfferAll(chans, done + {ch}, f)
  {
  }

  /**
   A receive that falls into a broadcast: it concerns one channel only, so it might as well have come before the
   broadcast (if that channel is still to be offered the frame) or after it (if it no longer is).
   */
  lemma ReceiveCommutes(chans: seq<Chan>, done: set<nat>, ch: nat, c: Chan, f: Frame)
    requires ch < |chans| && ch !in done
    ensures OfferAll(chans[ch := c], done, f) == OfferAll(chans, done, f)[ch := c]
  {
    var before, after := OfferAll(chans[ch := c], done, f), OfferAll(chans, done, f)[ch := c];
    assert forall i :: 0 <= i < |chans| ==> before[i] == after[i];
  }

  lemma CloseNext(chans: seq<Chan>, done: set<nat>, ch: nat)
    requires ch < |chans| && ch !in done
    ensures CloseAll(chans, done)[ch] == chans[ch]
    ensures CloseAll(chans, done)[ch := chans[ch].(closes := chans[ch].closes + 1)] == CloseAll(chans, done + {ch})
  {
  }

  lemma CountNext(full: set<nat>, done: set<nat>, ch: nat)
    requires ch !in done
    ensures |full * (done + {ch})| == |full * done| + if ch in full then 1 else 0
  {
    if ch in full {
      assert full * (done + {ch}) == (full * done) + {ch};
    } else {
      assert full * (done + {ch}) == full * done;
    }
  }

  const NEW: State := State([], {}, false, false, 0, [], 0)

  ghost predicate Execution(run: seq<State>, steps: seq<Step>) {
    && |run| == |steps| + 1 && run[0] == NEW
    && forall i :: 0 <= i < |steps| ==> Enabled(run[i], steps[i]) && run[i + 1] == Do(run[i], steps[i])
  }

  // ---- The code -----------------------------------------------------------

  class InterfaceDemux {
    var chans: seq<Chan>
    var listeners: set<nat>
    var closed: bool
    var cancelled: bool
    var dropped: nat
    ghost var captured: seq<Frame>
    ghost var offered: nat

    ghost function View(): State
      reads this
    {
      State(chans, listeners, closed, cancelled, dropped, captured, offered)
    }

    ghost predicate Valid()
      reads this
    {
      Lifecycle(View())
    }

    constructor ()
      ensures View() == NEW && Valid()
    {
      chans, listeners, closed, cancelled, dropped := [], {}, false, false, 0;
      captured, offered := [], 0;
    }

    method Subscribe() returns (ch: nat, ok: bool)
      requires Valid()
      modifies this
      ensures Valid() && View() == Do(old(View()), Step.Subscribe)
      ensures ok == CanSubscribe(old(View()))
      ensures ok ==> ch == old(|chans|) && ch in listeners
    {
      ok := false;
      ch := 0;
      if closed || cancelled {
        return;
      }
      if |listeners| >= MAX_SUBSCRIBERS {
        return;
      }
      ch := |chans|;
      chans := chans + [Chan([], [], 0)];
      listeners := listeners + {ch};
      ok := true;
    }

    /** Closing, which panics on a channel that is closed already. */
    method CloseChan(ch: nat)
      requires ch < |chans| && chans[ch].closes == 0
      modifies this`chans
      ensures chans == old(chans)[ch := old(chans)[ch].(closes := 1)]
    {
      chans := chans[ch := chans[ch].(closes := chans[ch].closes + 1)];
    }

    /** A send that does not wait, which panics on a closed channel. */
    method TrySend(ch: nat, f: Frame) returns (sent: bool)
      requires ch < |chans| && chans[ch].closes == 0
      modifies this`chans
      ensures sent == !old(chans)[ch].Full()
      ensures chans == old(chans)[ch := old(chans)[ch].Offer(f)]
    {
      sent := |chans[ch].queue| < CHANNEL_BUFFER_CAP;
      if sent {
        chans := chans[ch := chans[ch].(queue := chans[ch].queue + [f])];
      }
    }

    method Unsubscribe(ch: nat)
      requires Valid() && ch < |chans|
      modifies this
      ensures Valid() && View() == Do(old(View()), Step.Unsubscribe(ch))
    {
      if ch in listeners {
        listeners := listeners - {ch};
        CloseChan(ch);
        assert chans == CloseAll(old(chans), {ch});
      }
    }

    /** The locked section of the read loop. */
    method Broadcast(f: Frame)
      requires Valid() && !closed
      modifies this
      ensures Valid() && View() == Do(old(View()), Step.Broadcast(f))
    {
      FanOut(f);
      captured, offered := captured + [f], offered + |listeners|;
      LifecycleStep(old(View()), Step.Broadcast(f));
    }

    /** Offers f to every listener, in any order. */
    method FanOut(f: Frame)
      requires forall i :: i in listeners ==> i < |chans| && chans[i].closes == 0
      modifies this`chans, this`dropped
      ensures chans == OfferAll(old(chans), listeners, f)
      ensures dropped == old(dropped) + |old(View()).FullListeners()|
    {
      ghost var was, full := chans, View().FullListeners();
      var done := {};
      while listeners - done != {}
        invariant done <= listeners
        invariant chans == OfferAll(was, done, f)
        invariant dropped == old(dropped) + |full * done|
        decreases listeners - done
      {
        var ch :| ch in listeners - done;
        OfferNext(was, done, ch, f);
        CountNext(full, done, ch);
        var sent := TrySend(ch, f);
        if !sent {
          dropped := dropped + 1;
        }
        done := done + {ch};
      }
      assert done == listeners && full * done == full;
    }

    /** The deferred part of the read loop: every listener left is closed, in any order. */
    method Teardown()
      requires Valid() && !closed
      modifies this
      ensures Valid() && View() == Do(old(View()), Step.Teardown)
    {
      cancelled := true;
      closed := true;
      var done := {};
      while listeners - done != {}
        modifies this`chans
        invariant done <= listeners
        invariant chans == CloseAll(old(chans), done)
        decreases listeners - done
      {
        var ch :| ch in listeners - done;
        CloseNext(old(chans), done, ch);
        CloseChan(ch);
        done := done + {ch};
      }
      assert done == listeners;
      listeners := {};
      LifecycleStep(old(View()), Step.Teardown);
    }

    method Close()
      requires Valid()
      modifies this
      ensures Valid() && View() == Do(old(View()), Cancel)
    {
      cancelled := true;
    }
  }

  // ---- Lifecycle of the channels ------------------------------------------

  /** Registered channels are open; every other channel ever handed out was closed exactly once. */
  ghost predicate Lifecycle(s: State) {
    && (forall i :: i in s.listeners ==> i < |s.chans|)
    && (forall i :: 0 <= i < |s.chans| ==> s.chans[i].closes == if i in s.listeners then 0 else 1)
    && |s.listeners| <= MAX_SUBSCRIBERS
    && (s.closed ==> s.listeners == {} && s.cancelled)
    && (forall i :: 0 <= i < |s.chans| ==> |s.chans[i].queue| <= CHANNEL_BUFFER_CAP)
  }

  lemma LifecycleFrame(s: State, step: Step)
    requires Lifecycle(s) && Enabled(s, step) && (step.Broadcast? || step.Take? || step.Cancel?)
    ensures Lifecycle(Do(s, step))
  {
  }

  lemma LifecycleSubscribe(s: State)
    requires Lifecycle(s)
    ensures Lifecycle(Do(s, Subscribe))
  {
  }

  lemma LifecycleClose(s: State, step: Step)
    requires Lifecycle(s) && Enabled(s, step) && (step.Unsubscribe? || step.Teardown?)
    ensures Lifecycle(Do(s, step))
  {
  }

  lemma LifecycleStep(s: State, step: Step)
    requires Lifecycle(s) && Enabled(s, step)
    ensures Lifecycle(Do(s, step))
  {
    match step
    case Subscribe => LifecycleSubscribe(s);
    case Unsubscribe(_) => LifecycleClose(s, step);
    case Teardown => LifecycleClose(s, step);
    case _ => LifecycleFrame(s, step);
  }

  /**
   Over every interleaving: no channel is closed twice, at most 32 are registered, no queue exceeds
   1000 frames, and after teardown every channel ever handed out is closed exactly once and no
   later step registers or closes one.
   */
  lemma {:induction false} ChannelsClosedOnce(run: seq<State>, steps: seq<Step>)
    requires Execution(run, steps)
    ensures Lifecycle(Last(run))
    ensures forall i :: 0 <= i < |Last(run).chans| ==> Last(run).chans[i].closes <= 1
    ensures Last(run).closed ==> forall i :: 0 <= i < |Last(run).chans| ==> Last(run).chans[i].closes == 1
    ensures Last(run).closed || Last(run).cancelled ==> !CanSubscribe(Last(run))
    decreases |steps|
  {
    if |steps| > 0 {
      assert Execution(Init(run), Init(steps));
      ChannelsClosedOnce(Init(run), Init(steps));
      LifecycleStep(run[|steps| - 1], Last(steps));
    }
  }

  lemma ClosedStaysFrozen(s: State, step: Step, i: nat)
    requires Lifecycle(s) && Enabled(s, step) && i < |s.chans| && s.chans[i].closes > 0
    ensures i < |Do(s, step).chans| && Do(s, step).chans[i].closes == 1
    ensures Do(s, step).chans[i].Contents() == s.chans[i].Contents()
  {
    assert i !in s.listeners;
    if step == Take(i) {
      assert Do(s, step).chans[i].Contents() == s.chans[i].Contents();
    }
  }

  /** From its one close on, a channel is never sent to: it only hands out what it already held. */
  lemma {:induction false} NothingSentAfterClose(run: seq<State>, steps: seq<Step>, k: nat, i: nat)
    requires Execution(run, steps) && k < |run|
    requires i < |run[k].chans| && run[k].chans[i].closes > 0
    ensures i < |Last(run).chans| && Last(run).chans[i].closes == 1
    ensures Last(run).chans[i].Contents() == run[k].chans[i].Contents()
    decreases |run| - k
  {
    assert Execution(run[..k + 1], steps[..k]);
    ChannelsClosedOnce(run[..k + 1], steps[..k]);
    if k < |steps| {
      ClosedStaysFrozen(run[k], steps[k], i);
      NothingSentAfterClose(run, steps, k + 1, i);
    }
  }

  // ---- Conservation of frames ---------------------------------------------

  /** All copies that were enqueued, whether taken since or still waiting. */
  function Enqueued(chans: seq<Chan>): nat {
    if chans == [] then 0 else Enqueued(Init(chans)) + |Last(chans).Contents()|
  }

  lemma {:induction false} EnqueuedUpdate(chans: seq<Chan>, i: nat, c: Chan)
    requires i < |chans|
    ensures Enqueued(chans[i := c]) == Enqueued(chans) - |chans[i].Contents()| + |c.Contents()|
    decreases |chans|
  {
    if i < |chans| - 1 {
      EnqueuedUpdate(Init(chans), i, c);
      assert Init(chans[i := c]) == Init(chans)[i := c];
    } else {
      assert Init(chans[i := c]) == Init(chans);
    }
  }

  lemma {:induction false} EnqueuedClose(chans: seq<Chan>, which: set<nat>)
    ensures Enqueued(CloseAll(chans, which)) == Enqueued(chans)
    decreases |chans|
  {
    if chans != [] {
      EnqueuedClose(Init(chans), which);
      assert Init(CloseAll(chans, which)) == CloseAll(Init(chans), which);
    }
  }

  /** The channels among `which` with room for one more frame. */
  function WithRoom(chans: seq<Chan>, which: set<nat>): set<nat> {
    set i | i in which && i < |chans| && !chans[i].Full()
  }

  lemma WithRoomLast(chans: seq<Chan>, which: set<nat>)
    requires chans != []
    ensures var n := |chans| - 1;
            |WithRoom(chans, which)|
            == |WithRoom(Init(chans), which)| + if n in which && !chans[n].Full() then 1 else 0
  {
    var n := |chans| - 1;
    if n in which && !chans[n].Full() {
      assert WithRoom(chans, which) == WithRoom(Init(chans), which) + {n};
    } else {
      assert WithRoom(chans, which) == WithRoom(Init(chans), which);
    }
  }

  lemma OfferLast(c: Chan, f: Frame)
    ensures |c.Offer(f).Contents()| == |c.Contents()| + if c.Full() then 0 else 1
  {
  }

  lemma {:induction false} EnqueuedOffer(chans: seq<Chan>, which: set<nat>, f: Frame)
    ensures Enqueued(OfferAll(chans, which, f)) == Enqueued(chans) + |WithRoom(chans, which)|
    decreases |chans|
  {
    if chans == [] {
      assert WithRoom(chans, which) == {};
    } else {
      EnqueuedOffer(Init(chans), which, f);
      assert Init(OfferAll(chans, which, f)) == OfferAll(Init(chans), which, f);
      WithRoomLast(chans, which);
      OfferLast(Last(chans), f);
    }
  }

  ghost predicate Conserved(s: State) {
    && Enqueued(s.chans) + s.dropped == s.offered
    && forall i :: 0 <= i < |s.chans| ==> Subsequence(s.chans[i].Contents(), s.captured)
  }

  lemma BroadcastConserves(s: State, f: Frame)
    requires Lifecycle(s) && Conserved(s) && !s.closed
    ensures Conserved(Do(s, Broadcast(f)))
  {
    EnqueuedOffer(s.chans, s.listeners, f);
    var room, full := WithRoom(s.chans, s.listeners), s.FullListeners();
    assert room + full == s.listeners && room !! full;
    assert |s.listeners| == |room| + |full|;
    var s' := Do(s, Broadcast(f));
    forall i | 0 <= i < |s.chans| ensures Subsequence(s'.chans[i].Contents(), s'.captured) {
      SubsequenceExtend(s.chans[i].Contents(), s.captured, f);
      if s'.chans[i] != s.chans[i] {
        assert s'.chans[i].Contents() == s.chans[i].Contents() + [f];
      }
    }
  }

  lemma TakeConserves(s: State, ch: nat)
    requires Conserved(s) && Enabled(s, Take(ch))
    ensures Conserved(Do(s, Take(ch)))
  {
    var c, c' := s.chans[ch], Do(s, Take(ch)).chans[ch];
    assert c'.Contents() == c.Contents();
    EnqueuedUpdate(s.chans, ch, c');
  }

  lemma SubscribeConserves(s: State)
    requires Conserved(s)
    ensures Conserved(Do(s, Subscribe))
  {
    assert Init(s.chans + [Chan([], [], 0)]) == s.chans;
  }

  lemma ClosingConserves(s: State, step: Step)
    requires Conserved(s) && Enabled(s, step) && (step.Unsubscribe? || step.Teardown? || step.Cancel?)
    ensures Conserved(Do(s, step))
  {
    if step.Unsubscribe? {
      EnqueuedClose(s.chans, {step.ch});
    } else {
      EnqueuedClose(s.chans, s.listeners);
    }
  }

  lemma StepConserves(s: State, step: Step)
    requires Lifecycle(s) && Conserved(s) && Enabled(s, step)
    ensures Conserved(Do(s, step))
  {
    match step
    case Subscribe => SubscribeConserves(s);
    case Broadcast(f) => BroadcastConserves(s, f);
    case Take(ch) => TakeConserves(s, ch);
    case _ => ClosingConserves(s, step);
  }

  /**
   Frames are neither invented, reordered nor lost without being counted: enqueued copies plus dropped ones
   are the sum over all broadcasts of the number of subscribers, and each subscriber's frames
   form a subsequence, in order, of those captured.
   */
  lemma {:induction false} FramesConserved(run: seq<State>, steps: seq<Step>)
    requires Execution(run, steps)
    ensures Conserved(Last(run))
    decreases |steps|
  {
    if |steps| > 0 {
      assert Execution(Init(run), Init(steps));
      FramesConserved(Init(run), Init(steps));
      ChannelsClosedOnce(Init(run), Init(steps));
      StepConserves(run[|steps| - 1], Last(steps));
    }
  }
}
