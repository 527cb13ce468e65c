/**
 The link-state half of `InterfaceDemux` (bridge/bridge.go): distributing reports to any number of
 link-state subscribers, and closing the attached Link exactly once. The steps are the
 sections guarded by `linkMu`.
 */
module DemuxLinks {
  import opened Wrappers
  import opened Sequences
  import opened LinkReporter

  // ---- Distribution -------------------------------------------------------

  /** A subscriber channel of capacity one; `taken` is what its egress loop received. */
  datatype Chan = Chan(slot: Option<LinkState>, taken: seq<LinkState>) {
    /** The last state published to the channel, or Unknown. */
    function Latest(): LinkState {
      if slot.Some? then slot.value else if taken != [] then Last(taken) else Unknown
    }
  }

  datatype Hub = Hub(reported: LinkState, chans: seq<Chan>, listeners: set<nat>)

  datatype Step =
    | ObserveLink(o: Observation)
    | SubscribeLinkState
    | UnsubscribeLinkState(ch: nat)
    | Take(ch: nat)

  predicate Enabled(h: Hub, step: Step) {
    match step
    case Take(ch) => ch < |h.chans| && h.chans[ch].slot.Some?
    case _ => true
  }

  function PublishAll(chans: seq<Chan>, which: set<nat>, s: LinkState): seq<Chan> {
    seq(|chans|, i requires 0 <= i < |chans| => if i in which then chans[i].(slot := Some(s)) else chans[i])
  }

  function Do(h: Hub, step: Step): Hub
    requires Enabled(h, step)
  {
    match step
    case ObserveLink(o) =>
      var s := Emit(h.reported, o);
      h.(reported := Report(o), chans := if s == Unknown then h.chans else PublishAll(h.chans, h.listeners, s))
    case SubscribeLinkState =>
      h.(chans := h.chans + [Chan(if h.reported == Unknown then None else Some(h.reported), [])],
         listeners := h.listeners + {|h.chans|})
    case UnsubscribeLinkState(ch) => h.(listeners := h.listeners - {ch})
    case Take(ch) =>
      var c := h.chans[ch];
      h.(chans := h.chans[ch := Chan(None, c.taken + [c.slot.value])])
  }

  ghost predicate Execution(run: seq<Hub>, steps: seq<Step>) {
    && |run| == |steps| + 1 && run[0].chans == [] && run[0].listeners == {}
    && forall i :: 0 <= i < |steps| ==> Enabled(run[i], steps[i]) && run[i + 1] == Do(run[i], steps[i])
  }

  class LinkHub {
    const reporter: Reporter
    var chans: seq<Chan>
    var listeners: set<nat>

    ghost function View(): Hub
      reads this, reporter
    {
      Hub(reporter.reported, chans, listeners)
    }

    ghost predicate Valid()
      reads this
    {
      forall i :: i in listeners ==> i < |chans|
    }

    /** `attachLink` observes the current state of the interface before anybody subscribes. */
    constructor (current: Option<Observation>)
      ensures Valid() && fresh(reporter)
      ensures View() == Hub(if current.Some? then Report(current.value) else Unknown, [], {})
    {
      reporter := new Reporter();
      chans, listeners := [], {};
      new;
      if current.Some? {
        var _ := reporter.Observe(current.value);
      }
    }

    method ObserveLink(o: Observation)
      requires Valid()
      modifies this, reporter
      ensures Valid() && View() == Do(old(View()), Step.ObserveLink(o))
    {
      var s := reporter.Observe(o);
      if s == Unknown {
        return;
      }
      var done := {};
      while listeners - done != {}
        modifies this`chans
        invariant done <= listeners
        invariant chans == PublishAll(old(chans), done, s)
        decreases listeners - done
      {
        var ch :| ch in listeners - done;
        chans := chans[ch := chans[ch].(slot := Some(s))];
        assert chans == PublishAll(old(chans), done + {ch}, s);
        done := done + {ch};
      }
      assert done == listeners;
    }

    method SubscribeLinkState() returns (ch: nat)
      requires Valid()
      modifies this
      ensures Valid() && View() == Do(old(View()), Step.SubscribeLinkState)
      ensures ch == old(|chans|)
    {
      ch := |chans|;
      chans := chans + [Chan(None, [])];
      listeners := listeners + {ch};
      var s := reporter.Current();
      if s != Unknown {
        chans := chans[ch := Chan(Some(s), [])];
      }
    }

    method UnsubscribeLinkState(ch: nat)
      requires Valid()
      modifies this
      ensures Valid() && View() == Do(old(View()), Step.UnsubscribeLinkState(ch))
    {
      listeners := listeners - {ch};
    }
  }

  /** A state to report is the last one published to every registered subscriber. */
  ghost predicate SubscribersFollow(h: Hub) {
    && (forall i :: i in h.listeners ==> i < |h.chans|)
    && (h.reported != Unknown ==> forall i :: i in h.listeners ==> h.chans[i].Latest() == h.reported)
  }

  lemma FollowStep(h: Hub, step: Step)
    requires SubscribersFollow(h) && Enabled(h, step)
    ensures SubscribersFollow(Do(h, step))
  {
  }

  /**
   Whatever the order of observations, subscriptions and receives, in every reachable state the reporter's
   state is the last one published to each subscriber; so a subscriber that drained its channel holds it.
   */
  lemma {:induction false} EverySubscriberFollows(run: seq<Hub>, steps: seq<Step>)
    requires Execution(run, steps)
    ensures SubscribersFollow(Last(run))
    ensures var h := Last(run);
            h.reported != Unknown ==>
              forall i :: i in h.listeners && h.chans[i].slot == None
                          ==> h.chans[i].taken != [] && Last(h.chans[i].taken) == h.reported
    decreases |steps|
  {
    if |steps| > 0 {
      assert Execution(Init(run), Init(steps));
      EverySubscriberFollows(Init(run), Init(steps));
      FollowStep(run[|steps| - 1], Last(steps));
    }
  }

  // ---- Who is subscribed, told from the steps -----------------------------

  /** Step k subscribed, and handed out the channel c. */
  predicate HandedOut(run: seq<Hub>, steps: seq<Step>, c: nat, k: nat) {
    k < |steps| && k < |run| && steps[k].SubscribeLinkState? && |run[k].chans| == c
  }

  /** Within the first n steps c was handed out by step k and not given back since. */
  ghost predicate Held(run: seq<Hub>, steps: seq<Step>, c: nat, n: nat, k: nat) {
    && k < n <= |steps| && HandedOut(run, steps, c, k)
    && forall m :: k < m < n ==> steps[m] != UnsubscribeLinkState(c)
  }

  ghost predicate IsSubscribed(run: seq<Hub>, steps: seq<Step>, c: nat, n: nat) {
    exists k :: Held(run, steps, c, n, k)
  }

  lemma ListenersStep(h: Hub, step: Step, c: nat)
    requires Enabled(h, step) && forall i :: i in h.listeners ==> i < |h.chans|
    ensures c in Do(h, step).listeners
            <==> (step.SubscribeLinkState? && c == |h.chans|) || (c in h.listeners && step != UnsubscribeLinkState(c))
    ensures |Do(h, step).chans| == |h.chans| + if step.SubscribeLinkState? then 1 else 0
  {
  }

  lemma IsSubscribedNext(run: seq<Hub>, steps: seq<Step>, c: nat, n: nat)
    requires n < |steps| && n < |run|
    ensures IsSubscribed(run, steps, c, n + 1)
            <==> HandedOut(run, steps, c, n) || (IsSubscribed(run, steps, c, n) && steps[n] != UnsubscribeLinkState(c))
  {
    if k :| Held(run, steps, c, n, k) && steps[n] != UnsubscribeLinkState(c) {
      assert Held(run, steps, c, n + 1, k);
    }
    if HandedOut(run, steps, c, n) {
      assert Held(run, steps, c, n + 1, n);
    }
    if IsSubscribed(run, steps, c, n + 1) && !HandedOut(run, steps, c, n) {
      var k :| Held(run, steps, c, n + 1, k);
      assert Held(run, steps, c, n, k);
    }
  }

  lemma {:induction false} FollowsAt(run: seq<Hub>, steps: seq<Step>, n: nat)
    requires Execution(run, steps) && n <= |steps|
    ensures SubscribersFollow(run[n])
  {
    if n > 0 {
      FollowsAt(run, steps, n - 1);
      FollowStep(run[n - 1], steps[n - 1]);
    }
  }

  /** A channel is published to exactly from the step that handed it out until it is given back. */
  lemma {:induction false} ListenersAreSubscribed(run: seq<Hub>, steps: seq<Step>, c: nat, n: nat)
    requires Execution(run, steps) && n <= |steps|
    ensures c in run[n].listeners <==> IsSubscribed(run, steps, c, n)
  {
    if n > 0 {
      ListenersAreSubscribed(run, steps, c, n - 1);
      FollowsAt(run, steps, n - 1);
      ListenersStep(run[n - 1], steps[n - 1], c);
      IsSubscribedNext(run, steps, c, n - 1);
    }
  }

  /** So every channel handed out and not given back follows the reporter. */
  lemma SubscribedFollows(run: seq<Hub>, steps: seq<Step>, c: nat)
    requires Execution(run, steps) && IsSubscribed(run, steps, c, |steps|) && Last(run).reported != Unknown
    ensures c < |Last(run).chans| && Last(run).chans[c].Latest() == Last(run).reported
    ensures var ch := Last(run).chans[c];
            ch.slot == None ==> ch.taken != [] && Last(ch.taken) == Last(run).reported
  {
    ListenersAreSubscribed(run, steps, c, |steps|);
    EverySubscriberFollows(run, steps);
  }

  /** What was published to a channel and not replaced before it was received. */
  function Published(c: Chan): seq<LinkState> {
    c.taken + if c.slot.Some? then [c.slot.value] else []
  }

  lemma UnsubscribedStep(h: Hub, step: Step, c: nat)
    requires Enabled(h, step) && c < |h.chans| && c !in h.listeners
    ensures c < |Do(h, step).chans| && c !in Do(h, step).listeners
    ensures Published(Do(h, step).chans[c]) == Published(h.chans[c])
  {
  }

  /** Once a channel is given back, nothing more is published to it. */
  lemma {:induction false} NothingAfterUnsubscribing(run: seq<Hub>, steps: seq<Step>, c: nat, k: nat, n: nat)
    requires Execution(run, steps) && k < n <= |steps| && steps[k] == UnsubscribeLinkState(c) && c < |run[k].chans|
    ensures c < |run[n].chans| && c !in run[n].listeners
    ensures Published(run[n].chans[c]) == Published(run[k].chans[c])
    decreases n
  {
    if n == k + 1 {
      assert run[n] == Do(run[k], steps[k]);
    } else {
      NothingAfterUnsubscribing(run, steps, c, k, n - 1);
      UnsubscribedStep(run[n - 1], steps[n - 1], c);
    }
  }

  /** The last observation, if there was one, decides what is to be reported. */
  function LastObserved(steps: seq<Step>, was: LinkState, n: nat): LinkState
    requires n <= |steps|
  {
    if n == 0 then was
    else if steps[n - 1].ObserveLink? then
      var o := steps[n - 1].o;
      if !o.adminUp then Unknown else if o.carrier then Up else Down
    else LastObserved(steps, was, n - 1)
  }

  lemma {:induction false} ReportedIsLastObserved(run: seq<Hub>, steps: seq<Step>, n: nat)
    requires Execution(run, steps) && n <= |steps|
    ensures run[n].reported == LastObserved(steps, run[0].reported, n)
  {
    if n > 0 {
      ReportedIsLastObserved(run, steps, n - 1);
      assert run[n] == Do(run[n - 1], steps[n - 1]);
    }
  }

  /** How often the channel was received from. */
  function Receives(steps: seq<Step>, c: nat, n: nat): nat
    requires n <= |steps|
  {
    if n == 0 then 0 else Receives(steps, c, n - 1) + if steps[n - 1] == Take(c) then 1 else 0
  }

  lemma TakenStep(h: Hub, step: Step, c: nat)
    requires Enabled(h, step) && c < |Do(h, step).chans|
    ensures |Do(h, step).chans[c].taken|
            == (if c < |h.chans| then |h.chans[c].taken| else 0) + if step == Take(c) then 1 else 0
    ensures c < |h.chans| ==> h.chans[c].taken <= Do(h, step).chans[c].taken
    ensures step == Take(c) ==> Last(Do(h, step).chans[c].taken) == h.chans[c].slot.value && Do(h, step).chans[c].slot == None
  {
  }

  /** Every receive, and nothing else, adds one state to what the subscriber received. */
  lemma {:induction false} EachReceiveTakesOne(run: seq<Hub>, steps: seq<Step>, c: nat, n: nat)
    requires Execution(run, steps) && n <= |steps|
    ensures Receives(steps, c, n) == if c < |run[n].chans| then |run[n].chans[c].taken| else 0
  {
    if n > 0 {
      EachReceiveTakesOne(run, steps, c, n - 1);
      assert run[n] == Do(run[n - 1], steps[n - 1]) && Enabled(run[n - 1], steps[n - 1]);
      if c < |run[n].chans| {
        TakenStep(run[n - 1], steps[n - 1], c);
      }
    }
  }

  /** An observation reaches exactly the subscribers, and only when it says something other than what was reported. */
  lemma ObservationReaches(h: Hub, o: Observation, c: nat)
    requires c < |h.chans|
    ensures var state := if !o.adminUp then Unknown else if o.carrier then Up else Down;
            var news := state != Unknown && state != h.reported && c in h.listeners;
            && |Do(h, ObserveLink(o)).chans| == |h.chans|
            && Do(h, ObserveLink(o)).chans[c] == if news then Chan(Some(state), h.chans[c].taken) else h.chans[c]
  {
  }

  // ---- The attached Link is closed exactly once ---------------------------

  /** Where a caller of `attachLink` or `closeLink` stands: before its locked section, about to close, done. */
  datatype Progress = Before | MustClose | Done

  datatype Attachment = Attachment(attached: bool, linkClosed: bool, attach: Progress, close: Progress, closes: nat)

  datatype LinkStep = AttachLocked | AttachCloses | CloseLocked | CloseCloses

  predicate LinkEnabled(a: Attachment, step: LinkStep) {
    match step
    case AttachLocked => a.attach.Before?
    case AttachCloses => a.attach.MustClose?
    case CloseLocked => a.close.Before?
    case CloseCloses => a.close.MustClose?
  }

  function LinkDo(a: Attachment, step: LinkStep): Attachment
    requires LinkEnabled(a, step)
  {
    match step
    case AttachLocked =>
      if a.linkClosed then a.(attach := MustClose) else a.(attached := true, attach := Done)
    case AttachCloses => a.(attach := Done, closes := a.closes + 1)
    case CloseLocked => a.(linkClosed := true, close := if a.attached then MustClose else Done)
    case CloseCloses => a.(close := Done, closes := a.closes + 1)
  }

  predicate AttachmentInvariant(a: Attachment) {
    && (a.linkClosed <==> !a.close.Before?)
    && (a.attached ==> a.attach.Done?)
    && (a.attach.Done? && a.close.Before? ==> a.attached)
    && (a.close.MustClose? ==> a.attached && a.closes == 0)
    && (a.attach.MustClose? ==> a.close.Done? && !a.attached && a.closes == 0)
    && a.closes <= 1
    && (a.closes == 1 <==> a.attach.Done? && a.close.Done?)
  }

  ghost predicate LinkRun(run: seq<Attachment>, steps: seq<LinkStep>) {
    && |run| == |steps| + 1 && run[0] == Attachment(false, false, Before, Before, 0)
    && forall i :: 0 <= i < |steps| ==> LinkEnabled(run[i], steps[i]) && run[i + 1] == LinkDo(run[i], steps[i])
  }

  /**
   Whichever of `attachLink` and teardown gets the lock first, and however their unlocked halves
   interleave, the Link is closed at most once, and exactly once when both are done.
   */
  lemma {:induction false} LinkClosedExactlyOnce(run: seq<Attachment>, steps: seq<LinkStep>)
    requires LinkRun(run, steps)
    ensures AttachmentInvariant(Last(run))
    ensures Last(run).closes <= 1
    ensures Last(run).attach.Done? && Last(run).close.Done? ==> Last(run).closes == 1
    decreases |steps|
  {
    if |steps| > 0 {
      assert LinkRun(Init(run), Init(steps));
      LinkClosedExactlyOnce(Init(run), Init(steps));
    }
  }

  // ---- The two halves, told from the steps --------------------------------

  function Count(steps: seq<LinkStep>, step: LinkStep, n: nat): nat
    requires n <= |steps|
  {
    if n == 0 then 0 else Count(steps, step, n - 1) + if steps[n - 1] == step then 1 else 0
  }

  /** Each half runs once, and every close that a half goes on to make is one close of the Link. */
  lemma {:induction false} HalvesRunOnce(run: seq<Attachment>, steps: seq<LinkStep>, n: nat)
    requires LinkRun(run, steps) && n <= |steps|
    ensures Count(steps, AttachLocked, n) == if run[n].attach.Before? then 0 else 1
    ensures Count(steps, CloseLocked, n) == if run[n].close.Before? then 0 else 1
    ensures run[n].closes == Count(steps, AttachCloses, n) + Count(steps, CloseCloses, n)
  {
    if n > 0 {
      HalvesRunOnce(run, steps, n - 1);
      assert LinkEnabled(run[n - 1], steps[n - 1]) && run[n] == LinkDo(run[n - 1], steps[n - 1]);
    }
  }
}
