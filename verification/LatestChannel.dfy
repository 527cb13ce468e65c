/**
 `publishLatest` (bridge/link.go): a channel of capacity one whose single sender
 replaces an unread value. The sender makes two separate non-blocking
 selects, and the receiver may run before, between and after them.
 */
module LatestChannel {
  import opened Wrappers
  import opened Sequences

  class Channel<T(==)> {
    var slot: Option<T>

    constructor ()
      ensures slot == None
    {
      slot := None;
    }

    /** A receive that does not wait. */
    method TryReceive() returns (v: Option<T>)
      modifies this
      ensures slot == None && v == old(slot)
    {
      v := slot;
      slot := None;
    }

    /** A send that does not wait. */
    method TrySend(v: T) returns (sent: bool)
      modifies this
      ensures sent <==> old(slot) == None
      ensures slot == if sent then Some(v) else old(slot)
    {
      sent := slot == None;
      if sent {
        slot := Some(v);
      }
    }

    /** A call that nobody interrupts; the machine below lets the receiver in between the two operations. */
    method PublishLatest(v: T)
      modifies this
      ensures slot == Some(v)
    {
      var _ := TryReceive();
      var sent := TrySend(v);
      assert sent;
    }
  }

  // ---- Every interleaving of one sender and one receiver ------------------

  datatype Sender<T> = Idle | Draining(v: T) | Sending(v: T)

  /** `published` and `received` record history; `lost` counts sends that found the channel full. */
  datatype State<T> = State(slot: Option<T>, sender: Sender<T>, published: seq<T>, received: seq<T>, lost: nat)

  datatype Step<T> = Publish(v: T) | Drain | TrySend | Receive

  predicate Initial<T(==)>(s: State<T>) {
    s == State(None, Idle, [], [], 0)
  }

  predicate Enabled<T(==)>(s: State<T>, step: Step<T>) {
    match step
    case Publish(_) => s.sender.Idle?
    case Drain => s.sender.Draining?
    case TrySend => s.sender.Sending?
    case Receive => s.slot.Some?
  }

  function Do<T(==)>(s: State<T>, step: Step<T>): State<T>
    requires Enabled(s, step)
  {
    match step
    case Publish(v) => s.(sender := Draining(v))
    case Drain => s.(sender := Sending(s.sender.v), slot := None)
    case TrySend =>
      var s' := s.(sender := Idle, published := s.published + [s.sender.v]);
      if s.slot.None? then s'.(slot := Some(s.sender.v)) else s'.(lost := s.lost + 1)
    case Receive => s.(slot := None, received := s.received + [s.slot.value])
  }

  /** Everything that reached the receiver or still waits for it. */
  function Delivered<T>(s: State<T>): seq<T> {
    s.received + (if s.slot.Some? then [s.slot.value] else [])
  }

  ghost predicate Invariant<T>(s: State<T>) {
    && s.lost == 0
    && (s.sender.Sending? ==> s.slot == None)
    && Subsequence(Delivered(s), s.published)
    && (!s.sender.Sending? && s.published != [] ==>
          Delivered(s) != [] && Last(Delivered(s)) == Last(s.published))
  }

  ghost predicate Run<T>(run: seq<State<T>>, steps: seq<Step<T>>) {
    && |run| == |steps| + 1
    && Initial(run[0])
    && forall i :: 0 <= i < |steps| ==> Enabled(run[i], steps[i]) && run[i + 1] == Do(run[i], steps[i])
  }

  lemma DrainKeepsInvariant<T>(s: State<T>)
    requires Invariant(s) && s.sender.Draining?
    ensures Invariant(Do(s, Drain))
  {
    if s.slot.Some? {
      assert Delivered(s) == s.received + [s.slot.value] + [];
      SubsequenceRemove(s.received, s.slot.value, [], s.published);
      assert s.received + [] == s.received;
    }
    assert Delivered(Do(s, Drain)) == s.received;
  }

  lemma TrySendKeepsInvariant<T>(s: State<T>)
    requires Invariant(s) && s.sender.Sending?
    ensures Invariant(Do(s, TrySend))
  {
    assert Delivered(s) == s.received;
    SubsequenceExtend(s.received, s.published, s.sender.v);
    assert Delivered(Do(s, TrySend)) == s.received + [s.sender.v];
  }

  lemma ReceiveKeepsInvariant<T>(s: State<T>)
    requires Invariant(s) && s.slot.Some?
    ensures Invariant(Do(s, Receive))
  {
    assert Delivered(Do(s, Receive)) == Delivered(s);
  }

  lemma StepKeepsInvariant<T>(s: State<T>, step: Step<T>)
    requires Invariant(s) && Enabled(s, step)
    ensures Invariant(Do(s, step))
  {
    match step
    case Publish(_) => assert Delivered(Do(s, step)) == Delivered(s);
    case Drain => DrainKeepsInvariant(s);
    case TrySend => TrySendKeepsInvariant(s);
    case Receive => ReceiveKeepsInvariant(s);
  }

  /**
   With one sender and any interleaved receiver no value is ever refused: what was
   received is in order, and once the sender is idle a receiver that drains the channel
   holds the value published last.
   */
  lemma {:induction false} ReceiverEndsOnLatest<T>(run: seq<State<T>>, steps: seq<Step<T>>)
    requires Run(run, steps)
    ensures Invariant(Last(run))
    ensures Last(run).lost == 0 && Subsequence(Last(run).received, Last(run).published)
    ensures Last(run).sender.Idle? && Last(run).slot == None && Last(run).published != []
            ==> Last(run).received != [] && Last(Last(run).received) == Last(Last(run).published)
    decreases |steps|
  {
    if |steps| > 0 {
      var run', steps' := Init(run), Init(steps);
      assert Run(run', steps');
      ReceiverEndsOnLatest(run', steps');
      StepKeepsInvariant(run[|steps| - 1], Last(steps));
    }
    LatestIsHeld(Last(run));
  }

  /** What the invariant says about the receiver. */
  lemma LatestIsHeld<T>(s: State<T>)
    requires Invariant(s)
    ensures Subsequence(s.received, s.published)
    ensures s.sender.Idle? && s.slot == None && s.published != [] ==> s.received != [] && Last(s.received) == Last(s.published)
  {
    if s.slot.Some? {
      assert Delivered(s) == s.received + [s.slot.value] + [];
      SubsequenceRemove(s.received, s.slot.value, [], s.published);
      assert s.received + [] == s.received;
    } else {
      assert Delivered(s) == s.received;
    }
  }

  // ---- What is published and received, told from the steps ----------------

  /** The value of the call under way. */
  function UnderWay<T>(sender: Sender<T>): seq<T> {
    if sender.Idle? then [] else [sender.v]
  }

  function Publishes<T>(steps: seq<Step<T>>, n: nat): seq<T>
    requires n <= |steps|
  {
    if n == 0 then [] else Publishes(steps, n - 1) + if steps[n - 1].Publish? then [steps[n - 1].v] else []
  }

  function Receives<T>(steps: seq<Step<T>>, n: nat): nat
    requires n <= |steps|
  {
    if n == 0 then 0 else Receives(steps, n - 1) + if steps[n - 1].Receive? then 1 else 0
  }

  /** Every call publishes its value, in the order of the calls, and every receive takes one value. */
  lemma {:induction false} EachCallPublishes<T>(run: seq<State<T>>, steps: seq<Step<T>>, n: nat)
    requires Run(run, steps) && n <= |steps|
    ensures run[n].published + UnderWay(run[n].sender) == Publishes(steps, n)
    ensures |run[n].received| == Receives(steps, n)
  {
    if n > 0 {
      EachCallPublishes(run, steps, n - 1);
      assert Enabled(run[n - 1], steps[n - 1]) && run[n] == Do(run[n - 1], steps[n - 1]);
    }
  }
}
