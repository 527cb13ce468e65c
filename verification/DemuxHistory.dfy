/**
 What the state of a demux is, told from the steps alone: who is subscribed, which channels are closed, whether a
 subscription is accepted, and which frames each subscriber got.
 */
module DemuxHistory {
  import opened Sequences
  import opened Demux

  // ---- Subscribers --------------------------------------------------------

  /** Step k was a subscription, it was accepted, and it handed out the channel c. */
  predicate HandedOut(run: seq<State>, steps: seq<Step>, c: nat, k: nat) {
    k < |steps| && k + 1 < |run| && steps[k].Subscribe? && |run[k].chans| == c < |run[k + 1].chans|
  }

  /** The step ends the subscription of c. */
  predicate Ends(step: Step, c: nat) {
    step == Unsubscribe(c) || step.Teardown?
  }

  /** Within the first n steps c was handed out by step k and its subscription not ended since. */
  ghost predicate Held(run: seq<State>, steps: seq<Step>, c: nat, n: nat, k: nat) {
    k < n <= |steps| && HandedOut(run, steps, c, k) && forall m :: k < m < n ==> !Ends(steps[m], c)
  }

  ghost predicate IsSubscribed(run: seq<State>, steps: seq<Step>, c: nat, n: nat) {
    exists k :: Held(run, steps, c, n, k)
  }

  /** Within the first n steps c was handed out by step k. */
  ghost predicate WasHandedOut(run: seq<State>, steps: seq<Step>, c: nat, n: nat) {
    exists k: nat :: k < n <= |steps| && HandedOut(run, steps, c, k)
  }

  lemma SubscribersStep(s: State, step: Step, c: nat)
    requires Lifecycle(s) && Enabled(s, step)
    ensures var s' := Do(s, step);
            && (c in s'.listeners <==> (step.Subscribe? && |s.chans| == c < |s'.chans|) || (c in s.listeners && !Ends(step, c)))
            && (|s'.chans| > |s.chans| ==> step.Subscribe? && |s'.chans| == |s.chans| + 1)
            && |s'.chans| >= |s.chans|
  {
  }

  lemma IsSubscribedNext(run: seq<State>, steps: seq<Step>, c: nat, n: nat)
    requires n < |steps|
    ensures IsSubscribed(run, steps, c, n + 1)
            <==> HandedOut(run, steps, c, n) || (IsSubscribed(run, steps, c, n) && !Ends(steps[n], c))
  {
    if k :| Held(run, steps, c, n, k) && !Ends(steps[n], c) {
      assert Held(run, steps, c, n + 1, k);
    }
    if HandedOut(run, steps, c, n) {
      assert Held(run, steps, c, n + 1, n);
    }
    if IsSubscribed(run, steps, c, n + 1) && !HandedOut(run, steps, c, n) {
      var k :| Held(run, steps, c, n + 1, k);
      assert Held(run, steps, c, n, k);
    }
  }

  lemma {:induction false} LifecycleAt(run: seq<State>, steps: seq<Step>, n: nat)
    requires Execution(run, steps) && n <= |steps|
    ensures Lifecycle(run[n])
  {
    if n > 0 {
      LifecycleAt(run, steps, n - 1);
      LifecycleStep(run[n - 1], steps[n - 1]);
    }
  }

  /** The registered channels are exactly those handed out whose subscription was not ended since. */
  lemma {:induction false} ListenersAreSubscribed(run: seq<State>, steps: seq<Step>, c: nat, n: nat)
    requires Execution(run, steps) && n <= |steps|
    ensures c in run[n].listeners <==> IsSubscribed(run, steps, c, n)
  {
    if n > 0 {
      ListenersAreSubscribed(run, steps, c, n - 1);
      LifecycleAt(run, steps, n - 1);
      SubscribersStep(run[n - 1], steps[n - 1], c);
      IsSubscribedNext(run, steps, c, n - 1);
    }
  }

  lemma {:induction false} ChannelsWereHandedOut(run: seq<State>, steps: seq<Step>, c: nat, n: nat)
    requires Execution(run, steps) && n <= |steps|
    ensures c < |run[n].chans| <==> WasHandedOut(run, steps, c, n)
  {
    if n > 0 {
      ChannelsWereHandedOut(run, steps, c, n - 1);
      LifecycleAt(run, steps, n - 1);
      SubscribersStep(run[n - 1], steps[n - 1], c);
      if WasHandedOut(run, steps, c, n - 1) {
        assert WasHandedOut(run, steps, c, n);
      }
      if c < |run[n].chans| && c >= |run[n - 1].chans| {
        assert HandedOut(run, steps, c, n - 1);
      }
    }
  }

  /** A channel handed out is closed, once, exactly if its subscription was ended since. */
  lemma ClosedExactlyWhenEnded(run: seq<State>, steps: seq<Step>, c: nat, n: nat)
    requires Execution(run, steps) && n <= |steps| && c < |run[n].chans|
    ensures run[n].chans[c].closes == if IsSubscribed(run, steps, c, n) then 0 else 1
  {
    LifecycleAt(run, steps, n);
    ListenersAreSubscribed(run, steps, c, n);
  }

  // ---- Closing and refusing -----------------------------------------------

  ghost predicate Happened(steps: seq<Step>, step: Step, n: nat) {
    exists m :: 0 <= m < n && m < |steps| && steps[m] == step
  }

  lemma HappenedNext(steps: seq<Step>, step: Step, n: nat)
    requires n < |steps|
    ensures Happened(steps, step, n + 1) <==> Happened(steps, step, n) || steps[n] == step
  {
    if m :| 0 <= m < n + 1 && steps[m] == step && m < n {
      assert Happened(steps, step, n);
    }
  }

  lemma ClosingStep(s: State, step: Step)
    requires Enabled(s, step)
    ensures Do(s, step).closed == (s.closed || step.Teardown?)
    ensures Do(s, step).cancelled == (s.cancelled || step.Cancel? || step.Teardown?)
  {
  }

  /** The demux is closed exactly by its teardown, and cancelled by that or by a cancellation. */
  lemma {:induction false} ClosedExactlyByTeardown(run: seq<State>, steps: seq<Step>, n: nat)
    requires Execution(run, steps) && n <= |steps|
    ensures run[n].closed <==> Happened(steps, Teardown, n)
    ensures run[n].cancelled <==> Happened(steps, Cancel, n) || Happened(steps, Teardown, n)
  {
    if n > 0 {
      ClosedExactlyByTeardown(run, steps, n - 1);
      ClosingStep(run[n - 1], steps[n - 1]);
      HappenedNext(steps, Teardown, n - 1);
      HappenedNext(steps, Cancel, n - 1);
    }
  }

  lemma AcceptedWhen(s: State)
    ensures |Do(s, Subscribe).chans| > |s.chans| <==> !s.closed && !s.cancelled && |s.listeners| < 32
  {
  }

  /** A subscription is accepted exactly if fewer than 32 channels are subscribed and nothing was cancelled or torn down. */
  lemma AcceptedExactlyWhen(run: seq<State>, steps: seq<Step>, n: nat)
    requires Execution(run, steps) && n < |steps| && steps[n].Subscribe?
    ensures HandedOut(run, steps, |run[n].chans|, n)
            <==> |run[n].listeners| < 32 && !Happened(steps, Cancel, n) && !Happened(steps, Teardown, n)
  {
    ClosedExactlyByTeardown(run, steps, n);
    AcceptedWhen(run[n]);
    assert run[n + 1] == Do(run[n], steps[n]);
  }

  // ---- Frames -------------------------------------------------------------

  /** The frame that the step queues on channel c, if there is room for it. */
  function Queued(s: State, step: Step, c: nat): seq<Frame> {
    if step.Broadcast? && c in s.listeners && c < |s.chans| && |s.chans[c].queue| < 1000 then [step.f] else []
  }

  ghost function AllQueued(run: seq<State>, steps: seq<Step>, c: nat, n: nat): seq<Frame>
    requires Execution(run, steps) && n <= |steps|
  {
    if n == 0 then [] else AllQueued(run, steps, c, n - 1) + Queued(run[n - 1], steps[n - 1], c)
  }

  function Receives(steps: seq<Step>, c: nat, n: nat): nat
    requires n <= |steps|
  {
    if n == 0 then 0 else Receives(steps, c, n - 1) + if steps[n - 1] == Take(c) then 1 else 0
  }

  /** The channel holds what was queued: the first frames were received, the others wait. */
  predicate Holds(s: State, c: nat, queued: seq<Frame>, received: nat) {
    if c < |s.chans| then
      received <= |queued| && s.chans[c].taken == queued[..received] && s.chans[c].queue == queued[received..]
    else queued == [] && received == 0
  }

  lemma HoldsBroadcast(s: State, f: Frame, c: nat, queued: seq<Frame>, received: nat)
    requires Holds(s, c, queued, received) && !s.closed
    ensures Holds(Do(s, Broadcast(f)), c, queued + Queued(s, Broadcast(f), c), received)
  {
    assert queued + [] == queued;
  }

  lemma HoldsTake(s: State, ch: nat, c: nat, queued: seq<Frame>, received: nat)
    requires Holds(s, c, queued, received) && Enabled(s, Take(ch))
    ensures Holds(Do(s, Take(ch)), c, queued, received + if ch == c then 1 else 0)
  {
    if ch == c {
      assert queued[..received + 1] == queued[..received] + [queued[received]];
    }
  }

  lemma HoldsOther(s: State, step: Step, c: nat, queued: seq<Frame>, received: nat)
    requires Holds(s, c, queued, received) && Enabled(s, step) && !step.Broadcast? && !step.Take?
    ensures Holds(Do(s, step), c, queued, received)
  {
  }

  /**
   Each channel gets exactly the frames broadcast while it is subscribed and has room for them, in order, and every
   receive takes the first of those that wait.
   */
  lemma {:induction false} EachGetsItsFrames(run: seq<State>, steps: seq<Step>, c: nat, n: nat)
    requires Execution(run, steps) && n <= |steps|
    ensures Holds(run[n], c, AllQueued(run, steps, c, n), Receives(steps, c, n))
  {
    if n > 0 {
      EachGetsItsFrames(run, steps, c, n - 1);
      assert Enabled(run[n - 1], steps[n - 1]) && run[n] == Do(run[n - 1], steps[n - 1]);
      HoldsStep(run[n - 1], steps[n - 1], c, AllQueued(run, steps, c, n - 1), Receives(steps, c, n - 1));
    }
  }

  lemma HoldsStep(s: State, step: Step, c: nat, queued: seq<Frame>, received: nat)
    requires Holds(s, c, queued, received) && Enabled(s, step)
    ensures Holds(Do(s, step), c, queued + Queued(s, step, c), received + if step == Take(c) then 1 else 0)
  {
    assert queued + [] == queued;
    match step
    case Broadcast(f) => HoldsBroadcast(s, f, c, queued, received);
    case Take(ch) => HoldsTake(s, ch, c, queued, received);
    case _ => HoldsOther(s, step, c, queued, received);
  }

  /** The frames of the broadcasts, in order. */
  function Broadcasts(steps: seq<Step>, n: nat): seq<Frame>
    requires n <= |steps|
  {
    if n == 0 then [] else Broadcasts(steps, n - 1) + if steps[n - 1].Broadcast? then [steps[n - 1].f] else []
  }

  lemma {:induction false} CapturedAreBroadcasts(run: seq<State>, steps: seq<Step>, n: nat)
    requires Execution(run, steps) && n <= |steps|
    ensures run[n].captured == Broadcasts(steps, n)
  {
    if n > 0 {
      CapturedAreBroadcasts(run, steps, n - 1);
      assert run[n] == Do(run[n - 1], steps[n - 1]);
    }
  }

  /** The drops: at every broadcast one for each subscribed channel that is full. */
  ghost function Drops(run: seq<State>, steps: seq<Step>, n: nat): nat
    requires Execution(run, steps) && n <= |steps|
  {
    if n == 0 then 0
    else
      var s := run[n - 1];
      Drops(run, steps, n - 1)
      + if steps[n - 1].Broadcast? then |set c | c in s.listeners && c < |s.chans| && |s.chans[c].queue| >= 1000| else 0
  }

  lemma DropStep(s: State, step: Step)
    requires Enabled(s, step)
    ensures Do(s, step).dropped
            == s.dropped + if step.Broadcast? then |set c | c in s.listeners && c < |s.chans| && |s.chans[c].queue| >= 1000| else 0
  {
    assert s.FullListeners() == set c | c in s.listeners && c < |s.chans| && |s.chans[c].queue| >= 1000;
  }

  lemma {:induction false} DroppedExactly(run: seq<State>, steps: seq<Step>, n: nat)
    requires Execution(run, steps) && n <= |steps|
    ensures run[n].dropped == Drops(run, steps, n)
  {
    if n > 0 {
      DroppedExactly(run, steps, n - 1);
      DropStep(run[n - 1], steps[n - 1]);
    }
  }
}
