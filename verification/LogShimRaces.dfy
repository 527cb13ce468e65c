/**
 The log shim under concurrent use (logshim/logshim.go). A write or a flush changes the buffered rest under the
 lock, but hands its lines to the logger after unlocking, so calls may overlap: each takes its turn at the lock,
 and then its lines reach the logger one by one, between those of others. All flushes are made by one goroutine, so
 two of them never overlap; writes may come from anywhere.
 */
module LogShimRaces {
  import opened Wrappers
  import opened Sequences
  import opened LogShim

  /** A line handed to the logger, and which call, in the order of the lock, handed it over. */
  datatype Line = Line(call: nat, text: Text)

  /**
   `ops`: the calls in the order of the lock; `calls`: the lines each of them found there; `left`: those it has not
   handed over yet.
   */
  datatype Race = Race(partial: Text, ops: seq<Op>, calls: seq<seq<Text>>, left: seq<seq<Text>>, out: seq<Line>)

  const IDLE := Race([], [], [], [], [])

  datatype Step =
    | Lock(op: Op)    // a call's critical section
    | Emit(i: nat)    // the call hands over its next line

  /** What the call finds under the lock: the lines it will hand over and the rest it leaves; None is the panic. */
  function Find(partial: Text, op: Op): Option<State> {
    Apply(State(partial, []), op)
  }

  /** Every flush so far has handed over what it found. */
  predicate FlusherIsFree(r: Race) {
    forall i :: 0 <= i < |r.ops| && i < |r.left| && r.ops[i].Flush? ==> r.left[i] == []
  }

  predicate Enabled(r: Race, step: Step) {
    match step
    case Lock(op) => Find(r.partial, op).Some? && (op.Flush? ==> FlusherIsFree(r))
    case Emit(i) => i < |r.left| && r.left[i] != []
  }

  function Do(r: Race, step: Step): Race
    requires Enabled(r, step)
  {
    match step
    case Lock(op) =>
      var s := Find(r.partial, op).value;
      r.(partial := s.partial, ops := r.ops + [op], calls := r.calls + [s.lines], left := r.left + [s.lines])
    case Emit(i) =>
      r.(left := r.left[i := r.left[i][1..]], out := r.out + [Line(i, r.left[i][0])])
  }

  ghost predicate Execution(run: seq<Race>, steps: seq<Step>) {
    && |run| == |steps| + 1 && run[0] == IDLE
    && forall i :: 0 <= i < |steps| ==> Enabled(run[i], steps[i]) && run[i + 1] == Do(run[i], steps[i])
  }

  /** The calls in the order of the lock. */
  function Ops(steps: seq<Step>): seq<Op> {
    if steps == [] then [] else Ops(Init(steps)) + if Last(steps).Lock? then [Last(steps).op] else []
  }

  function Concat(calls: seq<seq<Text>>): seq<Text> {
    if calls == [] then [] else Concat(Init(calls)) + Last(calls)
  }

  function Texts(out: seq<Line>): seq<Text> {
    if out == [] then [] else Texts(Init(out)) + [Last(out).text]
  }

  /** What the call handed over. */
  function From(out: seq<Line>, i: nat): seq<Text> {
    if out == [] then [] else From(Init(out), i) + if Last(out).call == i then [Last(out).text] else []
  }

  /** Every line of every call has been handed over or is still to be, in the call's order. */
  ghost predicate Kept(r: Race) {
    && |r.left| == |r.calls| == |r.ops|
    && (forall k :: 0 <= k < |r.out| ==> r.out[k].call < |r.calls|)
    && (forall i :: 0 <= i < |r.calls| ==> From(r.out, i) + r.left[i] == r.calls[i])
  }

  lemma {:induction false} FromOthers(out: seq<Line>, i: nat)
    requires forall k :: 0 <= k < |out| ==> out[k].call < i
    ensures From(out, i) == []
    decreases |out|
  {
    if out != [] {
      FromOthers(Init(out), i);
    }
  }

  lemma LockKeeps(r: Race, op: Op)
    requires Kept(r) && Enabled(r, Lock(op))
    ensures Kept(Do(r, Lock(op)))
  {
    FromOthers(r.out, |r.calls|);
  }

  lemma EmitKeeps(r: Race, i: nat)
    requires Kept(r) && Enabled(r, Emit(i))
    ensures Kept(Do(r, Emit(i)))
  {
    var r' := Do(r, Emit(i));
    assert Init(r'.out) == r.out;
    forall j | 0 <= j < |r.calls| ensures From(r'.out, j) + r'.left[j] == r.calls[j] {
      assert From(r.out, j) + r.left[j] == r.calls[j];
    }
  }

  /** The lines each call finds, told from the calls alone. */
  function Found(ops: seq<Op>): (calls: seq<seq<Text>>)
    requires Run(ops).Some?
    ensures |calls| == |ops|
  {
    if ops == [] then [] else Found(Init(ops)) + [Find(Run(Init(ops)).value.partial, Last(ops)).value.lines]
  }

  /** All calls together find the lines of the sequential shim. */
  lemma {:induction false} FoundAreTheLines(ops: seq<Op>)
    requires Run(ops).Some?
    ensures Concat(Found(ops)) == Run(ops).value.lines
    decreases |ops|
  {
    if ops != [] {
      FoundAreTheLines(Init(ops));
      assert Init(Found(ops)) == Found(Init(ops));
    }
  }

  /** The lock makes the calls take effect one after the other. */
  lemma LockIsSequential(r: Race, ops: seq<Op>, op: Op)
    requires Run(ops).Some? && r.partial == Run(ops).value.partial && r.calls == Found(ops)
    requires Enabled(r, Lock(op))
    ensures Run(ops + [op]).Some?
    ensures Do(r, Lock(op)).partial == Run(ops + [op]).value.partial && Do(r, Lock(op)).calls == Found(ops + [op])
  {
    assert Init(ops + [op]) == ops && Last(ops + [op]) == op;
  }

  lemma {:induction false} ExecutionKeeps(run: seq<Race>, steps: seq<Step>)
    requires Execution(run, steps)
    ensures Kept(Last(run)) && Run(Ops(steps)).Some?
    ensures Last(run).ops == Ops(steps)
    ensures Last(run).partial == Run(Ops(steps)).value.partial && Last(run).calls == Found(Ops(steps))
    decreases |steps|
  {
    if steps != [] {
      assert Execution(Init(run), Init(steps));
      ExecutionKeeps(Init(run), Init(steps));
      var before := run[|steps| - 1];
      match Last(steps)
      case Lock(op) =>
        LockKeeps(before, op);
        LockIsSequential(before, Ops(Init(steps)), op);
      case Emit(i) =>
        EmitKeeps(before, i);
        assert Ops(steps) == Ops(Init(steps));
    }
  }

  // ---- Which calls can overlap --------------------------------------------

  /** A later call b can come in while a is under way: not if both, or a and one between, are flushes. */
  predicate Concurrent(ops: seq<Op>, a: nat, b: nat)
    requires a < b < |ops|
  {
    ops[a].Write? || forall f :: a < f <= b ==> ops[f].Write?
  }

  /** A line is handed over before one of an earlier call only if the two calls can overlap. */
  ghost predicate Orderly(out: seq<Line>, ops: seq<Op>) {
    && (forall k :: 0 <= k < |out| ==> out[k].call < |ops|)
    && (forall p, q :: 0 <= p < q < |out| && out[q].call < out[p].call ==> Concurrent(ops, out[q].call, out[p].call))
  }

  /** Every flush but the last is through. */
  predicate OneFlushAtATime(r: Race)
    requires |r.left| == |r.ops|
  {
    forall a, f :: 0 <= a < f < |r.ops| && r.ops[a].Flush? && r.ops[f].Flush? ==> r.left[a] == []
  }

  lemma LockIsOrderly(r: Race, op: Op)
    requires |r.left| == |r.ops| && OneFlushAtATime(r) && Orderly(r.out, r.ops) && Enabled(r, Lock(op))
    ensures OneFlushAtATime(Do(r, Lock(op))) && Orderly(r.out, Do(r, Lock(op)).ops)
  {
    var ops' := r.ops + [op];
    forall p, q | 0 <= p < q < |r.out| && r.out[q].call < r.out[p].call
      ensures Concurrent(ops', r.out[q].call, r.out[p].call)
    {
      assert Concurrent(r.ops, r.out[q].call, r.out[p].call);
    }
  }

  lemma EmitIsOrderly(r: Race, i: nat)
    requires |r.left| == |r.ops| && OneFlushAtATime(r) && Orderly(r.out, r.ops) && Enabled(r, Emit(i))
    ensures OneFlushAtATime(Do(r, Emit(i))) && Orderly(Do(r, Emit(i)).out, r.ops)
  {
    var out' := Do(r, Emit(i)).out;
    forall p, q | 0 <= p < q < |out'| && out'[q].call < out'[p].call ensures Concurrent(r.ops, out'[q].call, out'[p].call) {
      assert out'[p] == r.out[p];
      if q < |r.out| {
        assert out'[q] == r.out[q];
      } else {
        assert out'[q].call == i && r.left[i] != [];
      }
    }
  }

  lemma {:induction false} ExecutionIsOrderly(run: seq<Race>, steps: seq<Step>)
    requires Execution(run, steps)
    ensures |Last(run).left| == |Last(run).ops| && OneFlushAtATime(Last(run)) && Orderly(Last(run).out, Last(run).ops)
    decreases |steps|
  {
    if steps != [] {
      assert Execution(Init(run), Init(steps));
      ExecutionIsOrderly(Init(run), Init(steps));
      match Last(steps)
      case Lock(op) => LockIsOrderly(run[|steps| - 1], op);
      case Emit(i) => EmitIsOrderly(run[|steps| - 1], i);
    }
  }

  /** No call is under way. */
  predicate Quiet(r: Race) {
    forall i :: 0 <= i < |r.left| ==> r.left[i] == []
  }

  /** The calls handed over their lines one call after the other. */
  predicate InTurn(out: seq<Line>) {
    forall j, k :: 0 <= j < k < |out| ==> out[j].call <= out[k].call
  }

  /** Of lines handed over in turn, those of the last call are the tail. */
  lemma {:induction false} LastCall(out: seq<Line>, n: nat) returns (head: seq<Line>)
    requires InTurn(out) && forall k :: 0 <= k < |out| ==> out[k].call <= n
    ensures InTurn(head) && forall k :: 0 <= k < |head| ==> head[k].call < n
    ensures Texts(out) == Texts(head) + From(out, n)
    ensures forall i | 0 <= i < n :: From(out, i) == From(head, i)
    decreases |out|
  {
    if out == [] || Last(out).call < n {
      head := out;
      FromOthers(out, n);
    } else {
      head := LastCall(Init(out), n);
    }
  }

  lemma {:induction false} InTurnIsConcat(out: seq<Line>, calls: seq<seq<Text>>)
    requires InTurn(out) && forall k :: 0 <= k < |out| ==> out[k].call < |calls|
    requires forall i :: 0 <= i < |calls| ==> From(out, i) == calls[i]
    ensures Texts(out) == Concat(calls)
    decreases |calls|
  {
    if calls != [] {
      var head := LastCall(out, |calls| - 1);
      InTurnIsConcat(head, Init(calls));
    }
  }

  /** Of every call exactly its lines, in its order, however they lie between those of others. */
  ghost predicate Interleaves(out: seq<Line>, calls: seq<seq<Text>>) {
    && (forall k :: 0 <= k < |out| ==> out[k].call < |calls|)
    && (forall i :: 0 <= i < |calls| ==> From(out, i) == calls[i])
  }

  /**
   However calls overlap, when none is under way the logger got an interleaving of what the calls found, which all
   together is what the sequential shim logs. If the calls came in turn, it got just that.
   */
  lemma RacesLoseNothing(run: seq<Race>, steps: seq<Step>)
    requires Execution(run, steps) && Quiet(Last(run))
    ensures Run(Ops(steps)).Some? && Interleaves(Last(run).out, Found(Ops(steps)))
    ensures Orderly(Last(run).out, Ops(steps))
    ensures Concat(Found(Ops(steps))) == Run(Ops(steps)).value.lines
    ensures InTurn(Last(run).out) ==> Texts(Last(run).out) == Run(Ops(steps)).value.lines
  {
    ExecutionKeeps(run, steps);
    ExecutionIsOrderly(run, steps);
    FoundAreTheLines(Ops(steps));
    var r := Last(run);
    forall i | 0 <= i < |r.calls| ensures From(r.out, i) == r.calls[i] {
      assert From(r.out, i) + r.left[i] == r.calls[i] && r.left[i] == [];
    }
    if InTurn(r.out) {
      InTurnIsConcat(r.out, r.calls);
    }
  }

  /** No call enters the lock while another still has lines to hand over. */
  ghost predicate Exclusive(run: seq<Race>, steps: seq<Step>)
    requires |run| == |steps| + 1
  {
    forall i :: 0 <= i < |steps| && steps[i].Lock? ==> Quiet(run[i])
  }

  /** Without overlap the calls hand over their lines in turn. */
  lemma {:induction false} ExclusiveIsInTurn(run: seq<Race>, steps: seq<Step>)
    requires Execution(run, steps) && Exclusive(run, steps)
    ensures InTurn(Last(run).out) && |Last(run).left| == |Last(run).calls|
    ensures forall k :: 0 <= k < |Last(run).out| ==> Last(run).out[k].call < |Last(run).calls|
    ensures forall i :: 0 <= i < |Last(run).left| - 1 ==> Last(run).left[i] == []
    decreases |steps|
  {
    if steps != [] {
      assert Execution(Init(run), Init(steps));
      ExclusiveIsInTurn(Init(run), Init(steps));
      assert Last(Init(run)) == run[|steps| - 1];
    }
  }

  /** Without overlap the logger gets exactly the lines of the sequential shim, in its order. */
  lemma ExclusiveUseKeepsOrder(run: seq<Race>, steps: seq<Step>)
    requires Execution(run, steps) && Exclusive(run, steps) && Quiet(Last(run))
    ensures Run(Ops(steps)).Some? && Texts(Last(run).out) == Run(Ops(steps)).value.lines
  {
    ExclusiveIsInTurn(run, steps);
    RacesLoseNothing(run, steps);
  }
}
