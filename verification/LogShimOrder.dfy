/**
 When overlapping use of the log shim keeps the order of the lines. Every orderly interleaving of what the calls
 find can come about, so the order is certain exactly if the lines of calls that can overlap cannot be told apart.
 */
module LogShimOrder {
  import opened Wrappers
  import opened Sequences
  import opened LogShim
  import opened LogShimRaces

  // ---- Lines and where they come from -------------------------------------

  lemma {:induction false} FromAppend(a: seq<Line>, b: seq<Line>, i: nat)
    ensures From(a + b, i) == From(a, i) + From(b, i)
    decreases |b|
  {
    if b == [] {
      assert a + b == a;
    } else {
      FromAppend(a, Init(b), i);
      assert Init(a + b) == a + Init(b);
    }
  }

  lemma {:induction false} FromNone(out: seq<Line>, i: nat)
    requires forall k :: 0 <= k < |out| ==> out[k].call != i
    ensures From(out, i) == []
    decreases |out|
  {
    if out != [] {
      FromNone(Init(out), i);
    }
  }

  lemma {:induction false} TextsAt(out: seq<Line>)
    ensures |Texts(out)| == |out|
    ensures forall k :: 0 <= k < |out| ==> Texts(out)[k] == out[k].text
    decreases |out|
  {
    if out != [] {
      TextsAt(Init(out));
    }
  }

  lemma {:induction false} LineIsFrom(out: seq<Line>, k: nat)
    requires k < |out|
    ensures out[k].text in From(out, out[k].call)
    decreases |out|
  {
    if k < |out| - 1 {
      LineIsFrom(Init(out), k);
    }
  }

  lemma {:induction false} FromIsLine(out: seq<Line>, i: nat, t: Text) returns (k: nat)
    requires t in From(out, i)
    ensures k < |out| && out[k] == Line(i, t)
    decreases |out|
  {
    if Last(out) == Line(i, t) {
      k := |out| - 1;
    } else {
      k := FromIsLine(Init(out), i, t);
    }
  }

  lemma {:induction false} FromPrefix(out: seq<Line>, n: nat, i: nat)
    requires n <= |out|
    ensures From(out[..n], i) <= From(out, i)
  {
    FromAppend(out[..n], out[n..], i);
    assert out[..n] + out[n..] == out;
  }

  // ---- Every orderly interleaving can come about --------------------------

  lemma Extend(run: seq<Race>, steps: seq<Step>, step: Step) returns (run': seq<Race>, steps': seq<Step>)
    requires Execution(run, steps) && Enabled(Last(run), step)
    ensures Execution(run', steps') && Last(run') == Do(Last(run), step)
    ensures Ops(steps') == Ops(steps) + if step.Lock? then [step.op] else []
  {
    run', steps' := run + [Do(Last(run), step)], steps + [step];
    assert Init(steps') == steps && Last(steps') == step;
  }

  lemma {:induction false} RunPrefix(ops: seq<Op>, m: nat)
    requires m <= |ops| && Run(ops).Some?
    ensures Run(ops[..m]).Some? && Found(ops[..m]) == Found(ops)[..m]
    decreases |ops|
  {
    if m == |ops| {
      assert ops[..m] == ops;
    } else {
      RunPrefix(Init(ops), m);
      assert Init(ops)[..m] == ops[..m];
    }
  }

  /** Lines of the call that are not among the first n come later. */
  lemma NotYet(out: seq<Line>, n: nat, i: nat) returns (q: nat)
    requires n <= |out| && From(out[..n], i) != From(out, i)
    ensures n <= q < |out| && out[q].call == i
  {
    assert out[..n] + out[n..] == out;
    var k := Later(out[..n], out[n..], i);
    q := n + k;
  }

  lemma Later(a: seq<Line>, b: seq<Line>, i: nat) returns (k: nat)
    requires From(a, i) != From(a + b, i)
    ensures k < |b| && b[k].call == i
  {
    FromAppend(a, b, i);
    k := FromIsLine(b, i, From(b, i)[0]);
  }

  /** What a call of the run still has to hand over completes what the call of `ops` finds. */
  lemma StillLeft(ops: seq<Op>, run: seq<Race>, steps: seq<Step>, i: nat)
    requires Run(ops).Some? && Execution(run, steps) && |Ops(steps)| <= |ops| && Ops(steps) == ops[..|Ops(steps)|]
    requires i < |Ops(steps)|
    ensures Last(run).ops == Ops(steps) && |Last(run).left| == |Ops(steps)|
    ensures From(Last(run).out, i) + Last(run).left[i] == Found(ops)[i]
  {
    ExecutionKeeps(run, steps);
    RunPrefix(ops, |Ops(steps)|);
  }

  lemma NextFinds(ops: seq<Op>, m: nat)
    requires Run(ops).Some? && m < |ops|
    ensures Run(ops[..m]).Some? && Find(Run(ops[..m]).value.partial, ops[m]).Some?
  {
    RunPrefix(ops, m);
    RunPrefix(ops, m + 1);
    assert Init(ops[..m + 1]) == ops[..m] && Last(ops[..m + 1]) == ops[m];
  }

  /** Before the line of a call after a later flush comes, a flush has handed over everything. */
  lemma FlushIsThrough(ops: seq<Op>, out: seq<Line>, n: nat, i: nat, f: nat, left: seq<Text>)
    requires Orderly(out, ops) && n <= |out| && i < f < |ops| && ops[i].Flush? && ops[f].Flush?
    requires n == |out| || f <= out[n].call
    requires From(out[..n], i) + left == From(out, i)
    ensures left == []
  {
    if left != [] {
      assert |From(out[..n], i)| < |From(out, i)|;
      var q := NotYet(out, n, i);
    }
  }

  /** The next call can enter the lock, if a line still to come is of it or of a later call, or none is to come. */
  lemma NextCanLock(ops: seq<Op>, out: seq<Line>, n: nat, run: seq<Race>, steps: seq<Step>, m: nat)
    requires Run(ops).Some? && Interleaves(out, Found(ops)) && Orderly(out, ops) && n <= |out|
    requires Execution(run, steps) && m < |ops| && Ops(steps) == ops[..m] && Last(run).out == out[..n]
    requires n == |out| || m <= out[n].call
    ensures Enabled(Last(run), Lock(ops[m]))
  {
    var r := Last(run);
    NextFinds(ops, m);
    ExecutionKeeps(run, steps);
    if ops[m].Flush? {
      forall i | 0 <= i < |r.ops| && r.ops[i].Flush? ensures r.left[i] == [] {
        StillLeft(ops, run, steps, i);
        FlushIsThrough(ops, out, n, i, m, r.left[i]);
      }
    }
  }

  /** The run has made calls of `ops` only, and handed over the first n lines of `out`. */
  ghost predicate Follows(run: seq<Race>, steps: seq<Step>, ops: seq<Op>, out: seq<Line>, n: nat)
    requires n <= |out|
  {
    && Execution(run, steps) && Last(run).out == out[..n]
    && |Ops(steps)| <= |ops| && Ops(steps) == ops[..|Ops(steps)|]
  }

  /** All calls up to m enter the lock. */
  lemma {:induction false} LockUpTo(ops: seq<Op>, out: seq<Line>, n: nat, run: seq<Race>, steps: seq<Step>, m: nat)
    returns (run': seq<Race>, steps': seq<Step>)
    requires Run(ops).Some? && Interleaves(out, Found(ops)) && Orderly(out, ops) && n <= |out|
    requires Follows(run, steps, ops, out, n) && |Ops(steps)| <= m <= |ops| && (n == |out| || m <= out[n].call + 1)
    ensures Follows(run', steps', ops, out, n) && |Ops(steps')| == m
    decreases m - |Ops(steps)|
  {
    if |Ops(steps)| == m {
      run', steps' := run, steps;
    } else {
      run', steps' := LockNext(ops, out, n, run, steps);
      run', steps' := LockUpTo(ops, out, n, run', steps', m);
    }
  }

  lemma LockNext(ops: seq<Op>, out: seq<Line>, n: nat, run: seq<Race>, steps: seq<Step>)
    returns (run': seq<Race>, steps': seq<Step>)
    requires Run(ops).Some? && Interleaves(out, Found(ops)) && Orderly(out, ops) && n <= |out|
    requires Follows(run, steps, ops, out, n) && |Ops(steps)| < |ops| && (n == |out| || |Ops(steps)| <= out[n].call)
    ensures Follows(run', steps', ops, out, n) && |Ops(steps')| == |Ops(steps)| + 1
  {
    var k := |Ops(steps)|;
    NextCanLock(ops, out, n, run, steps, k);
    run', steps' := Extend(run, steps, Lock(ops[k]));
    PrefixNext(ops, Ops(steps), Ops(steps'));
  }

  lemma PrefixNext(ops: seq<Op>, made: seq<Op>, made': seq<Op>)
    requires |made| < |ops| && made == ops[..|made|] && made' == made + [ops[|made|]]
    ensures |made'| == |made| + 1 && made' == ops[..|made'|]
  {
  }

  lemma {:induction false} HandedOver(ops: seq<Op>, out: seq<Line>, n: nat) returns (run: seq<Race>, steps: seq<Step>)
    requires Run(ops).Some? && Interleaves(out, Found(ops)) && Orderly(out, ops) && n <= |out|
    ensures Follows(run, steps, ops, out, n)
    decreases n
  {
    if n == 0 {
      run, steps := [IDLE], [];
    } else {
      run, steps := HandedOver(ops, out, n - 1);
      run, steps := Locked(ops, out, n - 1, run, steps);
      run, steps := HandNext(ops, out, n - 1, run, steps);
    }
  }

  lemma HandNext(ops: seq<Op>, out: seq<Line>, n: nat, run: seq<Race>, steps: seq<Step>)
    returns (run': seq<Race>, steps': seq<Step>)
    requires Run(ops).Some? && Interleaves(out, Found(ops)) && n < |out|
    requires Follows(run, steps, ops, out, n) && out[n].call < |Ops(steps)|
    ensures Follows(run', steps', ops, out, n + 1)
  {
    NextLine(ops, out, n, run, steps);
    run', steps' := Extend(run, steps, Emit(out[n].call));
    assert out[..n + 1] == out[..n] + [out[n]];
  }

  lemma Locked(ops: seq<Op>, out: seq<Line>, n: nat, run: seq<Race>, steps: seq<Step>)
    returns (run': seq<Race>, steps': seq<Step>)
    requires Run(ops).Some? && Interleaves(out, Found(ops)) && Orderly(out, ops) && n < |out|
    requires Follows(run, steps, ops, out, n)
    ensures Follows(run', steps', ops, out, n) && out[n].call < |Ops(steps')|
  {
    if |Ops(steps)| <= out[n].call {
      run', steps' := LockUpTo(ops, out, n, run, steps, out[n].call + 1);
    } else {
      run', steps' := run, steps;
    }
  }

  lemma NextLine(ops: seq<Op>, out: seq<Line>, n: nat, run: seq<Race>, steps: seq<Step>)
    requires Run(ops).Some? && Interleaves(out, Found(ops)) && n < |out|
    requires Execution(run, steps) && out[n].call < |Ops(steps)| <= |ops| && Ops(steps) == ops[..|Ops(steps)|]
    requires Last(run).out == out[..n]
    ensures Enabled(Last(run), Emit(out[n].call)) && Last(run).left[out[n].call][0] == out[n].text
  {
    StillLeft(ops, run, steps, out[n].call);
    NextOf(out, n, Last(run).left[out[n].call]);
  }

  lemma NextOf(out: seq<Line>, n: nat, left: seq<Text>)
    requires n < |out| && From(out[..n], out[n].call) + left == From(out, out[n].call)
    ensures left != [] && left[0] == out[n].text
  {
    var done := From(out[..n], out[n].call);
    FromPrefix(out, n + 1, out[n].call);
    assert Init(out[..n + 1]) == out[..n] && Last(out[..n + 1]) == out[n];
    assert (done + [out[n].text])[|done|] == (done + left)[|done|];
  }

  lemma EveryInterleavingComesAbout(ops: seq<Op>, out: seq<Line>) returns (run: seq<Race>, steps: seq<Step>)
    requires Run(ops).Some? && Interleaves(out, Found(ops)) && Orderly(out, ops)
    ensures Execution(run, steps) && Quiet(Last(run)) && Ops(steps) == ops && Last(run).out == out
  {
    run, steps := HandedOver(ops, out, |out|);
    run, steps := LockUpTo(ops, out, |out|, run, steps, |ops|);
    assert out[..|out|] == out && ops[..|ops|] == ops;
    ExecutionKeeps(run, steps);
    forall i | 0 <= i < |Last(run).left| ensures Last(run).left[i] == [] {
      assert From(out, i) + Last(run).left[i] == From(out, i);
    }
  }

  // ---- When all orderly interleavings look the same -----------------------

  /** Calls that can overlap find the same text in every line. */
  ghost predicate OverlapsAreAlike(ops: seq<Op>)
    requires Run(ops).Some?
  {
    forall a, b, s, t :: 0 <= a < b < |ops| && Concurrent(ops, a, b) && 0 <= s < |Found(ops)[a]| && 0 <= t < |Found(ops)[b]|
                         ==> Found(ops)[a][s] == Found(ops)[b][t]
  }

  function Tagged(n: nat, lines: seq<Text>): seq<Line> {
    seq(|lines|, k requires 0 <= k < |lines| => Line(n, lines[k]))
  }

  /** All lines, call after call. */
  lemma {:induction false} OneAfterTheOther(calls: seq<seq<Text>>) returns (out: seq<Line>)
    ensures Interleaves(out, calls) && InTurn(out) && Texts(out) == Concat(calls)
    decreases |calls|
  {
    if calls == [] {
      out := [];
    } else {
      var head := OneAfterTheOther(Init(calls));
      OneMore(head, calls);
      out := head + Tagged(|calls| - 1, Last(calls));
    }
    InTurnIsConcat(out, calls);
  }

  lemma OneMore(head: seq<Line>, calls: seq<seq<Text>>)
    requires calls != [] && Interleaves(head, Init(calls)) && InTurn(head)
    ensures Interleaves(head + Tagged(|calls| - 1, Last(calls)), calls)
    ensures InTurn(head + Tagged(|calls| - 1, Last(calls)))
  {
    var n := |calls| - 1;
    var tail := Tagged(n, Last(calls));
    FromOthers(head, n);
    FromTagged(n, Last(calls));
    forall i | 0 <= i < |calls| ensures From(head + tail, i) == calls[i] {
      FromAppend(head, tail, i);
      if i < n {
        FromNone(tail, i);
        assert calls[i] == Init(calls)[i];
      }
    }
  }

  lemma {:induction false} FromTagged(n: nat, lines: seq<Text>)
    ensures From(Tagged(n, lines), n) == lines
    decreases |lines|
  {
    if lines != [] {
      FromTagged(n, Init(lines));
      assert Init(Tagged(n, lines)) == Tagged(n, Init(lines));
    }
  }

  /** Lines of one call can be exchanged with lines of other calls next to them. */
  lemma Exchange(u: seq<Line>, w: seq<Line>, a: nat, i: nat)
    requires forall k :: 0 <= k < |u| ==> u[k].call == a
    requires forall k :: 0 <= k < |w| ==> w[k].call != a
    ensures From(u + w, i) == From(w + u, i)
  {
    FromAppend(u, w, i);
    FromAppend(w, u, i);
    if i == a {
      FromNone(w, i);
    } else {
      FromNone(u, i);
    }
  }

  lemma ExchangeWithin(a: seq<Line>, w: seq<Line>, w': seq<Line>, b: seq<Line>, i: nat)
    requires From(w, i) == From(w', i)
    ensures From(a + w + b, i) == From(a + w' + b, i)
  {
    FromAppend(a + w, b, i);
    FromAppend(a, w, i);
    FromAppend(a + w', b, i);
    FromAppend(a, w', i);
  }

  /** The lines from p to e, all of one call, are handed over after those up to q, which are of others. */
  function Behind(out: seq<Line>, p: nat, e: nat, q: nat): seq<Line>
    requires p <= e < q < |out|
  {
    out[..p] + (out[e + 1..q + 1] + out[p..e + 1]) + out[q + 1..]
  }

  lemma BehindInterleaves(out: seq<Line>, calls: seq<seq<Text>>, p: nat, e: nat, q: nat, a: nat)
    requires Interleaves(out, calls) && p <= e < q < |out|
    requires forall k :: p <= k <= e ==> out[k].call == a
    requires forall k :: e < k <= q ==> out[k].call != a
    ensures Interleaves(Behind(out, p, e, q), calls)
  {
    var out' := Behind(out, p, e, q);
    var u, w := out[p..e + 1], out[e + 1..q + 1];
    assert out == out[..p] + (u + w) + out[q + 1..];
    forall i | 0 <= i < |calls| ensures From(out', i) == calls[i] {
      Exchange(u, w, a, i);
      ExchangeWithin(out[..p], u + w, w + u, out[q + 1..], i);
    }
    forall k | 0 <= k < |out'| ensures out'[k].call < |calls| {
      assert out'[k] == out[Before(p, e, q, k)];
    }
  }

  /** Where the line at k was before. */
  function Before(p: nat, e: nat, q: nat, k: nat): nat
    requires p <= e < q
  {
    if p <= k < p + q - e then k + e + 1 - p
    else if p + q - e <= k <= q then k - (q - e)
    else k
  }

  lemma BehindIsOrderly(ops: seq<Op>, out: seq<Line>, p: nat, e: nat, q: nat, a: nat)
    requires InTurn(out) && Orderly(out, ops) && p <= e < q < |out|
    requires forall k :: p <= k <= e ==> out[k].call == a
    requires forall k :: e < k <= q ==> a < out[k].call && Concurrent(ops, a, out[k].call)
    ensures Orderly(Behind(out, p, e, q), ops)
  {
    var out' := Behind(out, p, e, q);
    forall k | 0 <= k < |out'| ensures out'[k] == out[Before(p, e, q, k)] {
    }
    forall j, k | 0 <= j < k < |out'| && out'[k].call < out'[j].call
      ensures Concurrent(ops, out'[k].call, out'[j].call)
    {
      assert out'[j] == out[Before(p, e, q, j)] && out'[k] == out[Before(p, e, q, k)];
    }
  }

  lemma {:induction false} LastOf(out: seq<Line>, p: nat) returns (e: nat)
    requires p < |out|
    ensures p <= e < |out| && out[e].call == out[p].call && forall k :: e < k < |out| ==> out[k].call != out[p].call
    decreases |out| - p
  {
    if k :| p < k < |out| && out[k].call == out[p].call {
      e := LastOf(out, k);
    } else {
      e := p;
    }
  }

  lemma LaterIsConcurrent(ops: seq<Op>, a: nat, b: nat, k: nat)
    requires a < k <= b < |ops| && Concurrent(ops, a, b)
    ensures Concurrent(ops, a, k)
  {
  }

  /** Two different lines of calls that can overlap: some orderly interleaving looks different. */
  lemma Distinguishable(ops: seq<Op>, a: nat, s: nat, b: nat, t: nat) returns (out: seq<Line>)
    requires Run(ops).Some? && a < b < |ops| && Concurrent(ops, a, b)
    requires s < |Found(ops)[a]| && t < |Found(ops)[b]| && Found(ops)[a][s] != Found(ops)[b][t]
    ensures Interleaves(out, Found(ops)) && Orderly(out, ops) && Texts(out) != Concat(Found(ops))
  {
    var c := OneAfterTheOther(Found(ops));
    var p := FromIsLine(c, a, Found(ops)[a][s]);
    var q := FromIsLine(c, b, Found(ops)[b][t]);
    var e := LastOf(c, p);
    assert p <= e < q;
    out := MadeDifferent(ops, c, p, e, q);
  }

  lemma MadeDifferent(ops: seq<Op>, c: seq<Line>, p: nat, e: nat, q: nat) returns (out: seq<Line>)
    requires Run(ops).Some? && Interleaves(c, Found(ops)) && InTurn(c) && p <= e < q < |c|
    requires c[p].call == c[e].call && forall k :: e < k < |c| ==> c[k].call != c[p].call
    requires c[p].call < c[q].call < |ops| && Concurrent(ops, c[p].call, c[q].call) && c[p].text != c[q].text
    ensures Interleaves(out, Found(ops)) && Orderly(out, ops) && Texts(out) != Texts(c)
  {
    if d :| e < d <= q && c[d].text != c[e].text {
      out := MovedBehind(ops, c, e, e, d, c[p].call, c[q].call);
      assert out[d] == c[e];
      LooksDifferent(out, c, d);
    } else {
      assert c[q].text == c[e].text && c[e + 1].text == c[e].text;
      out := MovedBehind(ops, c, p, e, q, c[p].call, c[q].call);
      assert out[p] == c[e + 1];
      LooksDifferent(out, c, p);
    }
  }

  lemma MovedBehind(ops: seq<Op>, c: seq<Line>, p: nat, e: nat, q: nat, a: nat, b: nat) returns (out: seq<Line>)
    requires Run(ops).Some? && a < b < |ops| && Concurrent(ops, a, b)
    requires Interleaves(c, Found(ops)) && InTurn(c) && p <= e < q < |c|
    requires c[p].call == c[e].call == a && c[q].call <= b && forall k :: e < k < |c| ==> c[k].call != a
    ensures out == Behind(c, p, e, q) && Interleaves(out, Found(ops)) && Orderly(out, ops)
  {
    out := Behind(c, p, e, q);
    forall k | p <= k <= e ensures c[k].call == a {
      assert c[p].call <= c[k].call && c[k].call <= c[e].call;
    }
    forall k | e < k <= q ensures a < c[k].call && Concurrent(ops, a, c[k].call) {
      assert c[e].call <= c[k].call && c[k].call <= c[q].call;
      LaterIsConcurrent(ops, a, b, c[k].call);
    }
    BehindInterleaves(c, Found(ops), p, e, q, a);
    BehindIsOrderly(ops, c, p, e, q, a);
  }

  lemma LooksDifferent(out: seq<Line>, c: seq<Line>, k: nat)
    requires k < |out| && k < |c| && out[k].text != c[k].text
    ensures Texts(out) != Texts(c)
  {
    TextsAt(out);
    TextsAt(c);
  }

  // ---- All of them look the same ------------------------------------------

  /** The calls, the line x taken away from the end of call a. */
  lemma {:induction false} ConcatWithout(calls: seq<seq<Text>>, a: nat)
    requires a < |calls| && calls[a] != [] && forall i :: a < i < |calls| ==> calls[i] == []
    ensures Concat(calls) == Concat(calls[a := Init(calls[a])]) + [Last(calls[a])]
    decreases |calls|
  {
    if a < |calls| - 1 {
      ConcatWithout(Init(calls), a);
      assert Init(calls[a := Init(calls[a])]) == Init(calls)[a := Init(calls[a])];
    } else {
      assert Init(calls[a := Init(calls[a])]) == Init(calls);
      assert calls[a] == Init(calls[a]) + [Last(calls[a])];
    }
  }

  lemma {:induction false} LastNonEmpty(calls: seq<seq<Text>>, i: nat) returns (a: nat)
    requires i < |calls| && calls[i] != []
    ensures a < |calls| && calls[a] != [] && forall k :: a < k < |calls| ==> calls[k] == []
    decreases |calls| - i
  {
    if k :| i < k < |calls| && calls[k] != [] {
      a := LastNonEmpty(calls, k);
    } else {
      a := i;
    }
  }

  /** Lines that stand in the wrong order are of the same text. */
  ghost predicate InversionsAreAlike(out: seq<Line>) {
    forall p, q :: 0 <= p < q < |out| && out[q].call < out[p].call ==> out[p].text == out[q].text
  }

  /** The line x, after which its text only repeats, taken away. */
  lemma TextsAround(l: seq<Line>, x: Line, r: seq<Line>)
    requires forall q :: 0 <= q < |r| ==> r[q].text == x.text
    ensures Texts(l + [x] + r) == Texts(l + r) + [x.text]
  {
    var out, rest := l + [x] + r, l + r;
    TextsAt(out);
    TextsAt(rest);
    var again := Texts(rest) + [x.text];
    assert forall k :: 0 <= k < |out| ==> Texts(out)[k] == again[k];
  }

  lemma FromOne(x: Line, i: nat)
    ensures From([x], i) == if i == x.call then [x.text] else []
  {
    assert Init([x]) == [] && Last([x]) == x;
  }

  lemma FromAround(a: seq<Line>, x: Line, b: seq<Line>, i: nat)
    requires forall q :: 0 <= q < |b| ==> b[q].call != x.call
    ensures i == x.call ==> From(a + [x] + b, i) == From(a + b, i) + [x.text]
    ensures i != x.call ==> From(a + [x] + b, i) == From(a + b, i)
  {
    FromAppend(a + [x], b, i);
    FromAppend(a, [x], i);
    FromAppend(a, b, i);
    FromOne(x, i);
    if i == x.call {
      FromNone(b, i);
    }
  }

  /** The last line of the last call that found one, and what remains without it. */
  lemma Strip(l: seq<Line>, x: Line, r: seq<Line>, calls: seq<seq<Text>>)
    requires Interleaves(l + [x] + r, calls) && x.call < |calls| && calls[x.call] != []
    requires forall i :: x.call < i < |calls| ==> calls[i] == []
    requires forall q :: 0 <= q < |r| ==> r[q].call != x.call
    ensures Last(calls[x.call]) == x.text
    ensures Interleaves(l + r, calls[x.call := Init(calls[x.call])])
  {
    var calls' := calls[x.call := Init(calls[x.call])];
    FromAround(l, x, r, x.call);
    forall i | 0 <= i < |calls'| ensures From(l + r, i) == calls'[i] {
      FromAround(l, x, r, i);
    }
    var out := l + [x] + r;
    assert forall k :: 0 <= k < |l| ==> out[k] == l[k];
    assert forall k :: 0 <= k < |r| ==> out[|l| + 1 + k] == r[k];
  }

  /** What follows the last line of the last call that found one repeats its text. */
  lemma RestRepeats(l: seq<Line>, x: Line, r: seq<Line>, calls: seq<seq<Text>>)
    requires Interleaves(l + [x] + r, calls) && InversionsAreAlike(l + [x] + r) && x.call < |calls|
    requires forall i :: x.call < i < |calls| ==> calls[i] == []
    requires forall q :: 0 <= q < |r| ==> r[q].call != x.call
    ensures forall q :: 0 <= q < |r| ==> r[q].text == x.text
  {
    var out, p := l + [x] + r, |l|;
    forall q | 0 <= q < |r| ensures r[q].text == x.text {
      assert out[p] == x && out[p + 1 + q] == r[q];
      LineIsFrom(out, p + 1 + q);
    }
  }

  lemma RestIsAlike(l: seq<Line>, x: Line, r: seq<Line>)
    requires InversionsAreAlike(l + [x] + r)
    ensures InversionsAreAlike(l + r)
  {
    var out, rest := l + [x] + r, l + r;
    forall j, k | 0 <= j < k < |rest| && rest[k].call < rest[j].call ensures rest[j].text == rest[k].text {
      var j', k' := if j < |l| then j else j + 1, if k < |l| then k else k + 1;
      assert rest[j] == out[j'] && rest[k] == out[k'];
    }
  }

  /** If only like lines change places, the order of the texts is that of the calls. */
  lemma {:induction false} Indistinguishable(out: seq<Line>, calls: seq<seq<Text>>)
    requires Interleaves(out, calls) && InversionsAreAlike(out)
    ensures Texts(out) == Concat(calls)
    decreases |out|
  {
    if out == [] {
      InTurnIsConcat(out, calls);
    } else {
      LineIsFrom(out, 0);
      var a := LastNonEmpty(calls, out[0].call);
      var k := FromIsLine(out, a, calls[a][0]);
      var p := LastOf(out, k);
      var l, x, r := out[..p], out[p], out[p + 1..];
      assert l + [x] + r == out;
      RestRepeats(l, x, r, calls);
      Strip(l, x, r, calls);
      RestIsAlike(l, x, r);
      Indistinguishable(l + r, calls[a := Init(calls[a])]);
      TextsAround(l, x, r);
      ConcatWithout(calls, a);
    }
  }

  lemma OrderlyIsAlike(ops: seq<Op>, out: seq<Line>)
    requires Run(ops).Some? && OverlapsAreAlike(ops) && Interleaves(out, Found(ops)) && Orderly(out, ops)
    ensures InversionsAreAlike(out)
  {
    forall p, q | 0 <= p < q < |out| && out[q].call < out[p].call ensures out[p].text == out[q].text {
      LineIsFrom(out, p);
      LineIsFrom(out, q);
      assert Concurrent(ops, out[q].call, out[p].call);
    }
  }

  // ---- The exact condition ------------------------------------------------

  /** Every use of the shim that makes these calls, in this order of the lock, logs the lines in order. */
  ghost predicate OrderIsCertain(ops: seq<Op>)
    requires Run(ops).Some?
  {
    forall run, steps :: Execution(run, steps) && Quiet(Last(run)) && Ops(steps) == ops
                         ==> Texts(Last(run).out) == Run(ops).value.lines
  }

  /** The order of the lines is certain if and only if calls that can overlap find only lines of one text. */
  lemma OrderIsCertainExactlyWhen(ops: seq<Op>)
    requires Run(ops).Some?
    ensures OrderIsCertain(ops) <==> OverlapsAreAlike(ops)
  {
    FoundAreTheLines(ops);
    if OverlapsAreAlike(ops) {
      forall run, steps | Execution(run, steps) && Quiet(Last(run)) && Ops(steps) == ops
        ensures Texts(Last(run).out) == Run(ops).value.lines
      {
        RacesLoseNothing(run, steps);
        OrderlyIsAlike(ops, Last(run).out);
        Indistinguishable(Last(run).out, Found(ops));
      }
    } else {
      var a, b, s, t :| 0 <= a < b < |ops| && Concurrent(ops, a, b)
                        && 0 <= s < |Found(ops)[a]| && 0 <= t < |Found(ops)[b]| && Found(ops)[a][s] != Found(ops)[b][t];
      var out := Distinguishable(ops, a, s, b, t);
      var run, steps := EveryInterleavingComesAbout(ops, out);
    }
  }

  predicate AtMostOneFinds(calls: seq<seq<Text>>) {
    forall i, j :: 0 <= i < j < |calls| ==> calls[i] == [] || calls[j] == []
  }

  predicate AllAlike(calls: seq<seq<Text>>) {
    forall i, j, s, t :: 0 <= i < |calls| && 0 <= j < |calls| && 0 <= s < |calls[i]| && 0 <= t < |calls[j]|
                         ==> calls[i][s] == calls[j][t]
  }

  /** For writes alone, then: if and only if at most one of them finds a line or all lines found are the same text. */
  lemma WritesAreCertainExactlyWhen(ops: seq<Op>)
    requires Run(ops).Some? && forall i :: 0 <= i < |ops| ==> ops[i].Write?
    ensures OrderIsCertain(ops) <==> AtMostOneFinds(Found(ops)) || AllAlike(Found(ops))
  {
    OrderIsCertainExactlyWhen(ops);
    var calls := Found(ops);
    if !AtMostOneFinds(calls) && !AllAlike(calls) {
      var i, s, j, t := TwoDifferent(calls);
      assert Concurrent(ops, i, j);
    }
  }

  /** Two calls find two different lines. */
  lemma TwoDifferent(calls: seq<seq<Text>>) returns (i: nat, s: nat, j: nat, t: nat)
    requires !AtMostOneFinds(calls) && !AllAlike(calls)
    ensures i < j < |calls| && s < |calls[i]| && t < |calls[j]| && calls[i][s] != calls[j][t]
  {
    var i1, j1 :| 0 <= i1 < j1 < |calls| && calls[i1] != [] && calls[j1] != [];
    var a, b, c, d :| 0 <= a < |calls| && 0 <= b < |calls| && 0 <= c < |calls[a]| && 0 <= d < |calls[b]|
                      && calls[a][c] != calls[b][d];
    if a < b {
      i, s, j, t := a, c, b, d;
    } else if b < a {
      i, s, j, t := b, d, a, c;
    } else {
      var o := if a == i1 then j1 else i1;
      var x := if calls[o][0] != calls[a][c] then c else d;
      if o < a {
        i, s, j, t := o, 0, a, x;
      } else {
        i, s, j, t := a, x, o, 0;
      }
    }
  }

  /** For instance: two overlapping writes of one line each may be logged the wrong way round. */
  lemma OverlapReorders(a: Text, b: Text)
    requires OneLine(a) && OneLine(b) && a != b && a != [] && b != []
    ensures var ops := [Write(a + [NEWLINE]), Write(b + [NEWLINE])];
            && Run(ops) == Some(State([], [a, b])) && !OrderIsCertain(ops)
            && exists run, steps :: && Execution(run, steps) && Quiet(Last(run)) && Ops(steps) == ops
                                    && Texts(Last(run).out) == [b, a]
  {
    var ops := [Write(a + [NEWLINE]), Write(b + [NEWLINE])];
    TwoWrites(a, b);
    var out := [Line(1, b), Line(0, a)];
    FromTwo(Line(1, b), Line(0, a));
    var run, steps := EveryInterleavingComesAbout(ops, out);
    TextsAt(out);
    assert Texts(out) == [b, a];
    assert [a, b][0] != [b, a][0];
  }

  lemma TwoWrites(a: Text, b: Text)
    requires OneLine(a) && OneLine(b) && a != [] && b != []
    ensures var ops := [Write(a + [NEWLINE]), Write(b + [NEWLINE])];
            Run(ops) == Some(State([], [a, b])) && Found(ops) == [[a], [b]]
  {
    var first, second := Write(a + [NEWLINE]), Write(b + [NEWLINE]);
    LineWritten([], a);
    LineWritten([], b);
    LineWritten([a], b);
    assert [] + [first] == [first] && [first] + [second] == [first, second];
    RunNext([], first);
    RunNext([first], second);
    assert [] + [a] == [a] && [] + [b] == [b] && [a] + [b] == [a, b];
    assert Found([first]) == [[a]] && [[a]] + [[b]] == [[a], [b]];
  }

  lemma RunNext(ops: seq<Op>, op: Op)
    requires Run(ops).Some? && Apply(Run(ops).value, op).Some?
    ensures Run(ops + [op]) == Apply(Run(ops).value, op)
    ensures Found(ops + [op]) == Found(ops) + [Find(Run(ops).value.partial, op).value.lines]
  {
    assert Init(ops + [op]) == ops && Last(ops + [op]) == op;
  }

  lemma FromTwo(first: Line, second: Line)
    requires first.call != second.call
    ensures From([first, second], first.call) == [first.text] && From([first, second], second.call) == [second.text]
  {
    FromOne(first, first.call);
    FromOne(second, second.call);
    FromNone([first], second.call);
    FromNone([second], first.call);
    FromAppend([first], [second], first.call);
    FromAppend([first], [second], second.call);
    assert [first] + [second] == [first, second];
  }

  lemma LineWritten(lines: seq<Text>, a: Text)
    requires OneLine(a) && a != []
    ensures Apply(State([], lines), Write(a + [NEWLINE])) == Some(State([], lines + [a]))
  {
    SplitOneLine(a);
    var text := a + [NEWLINE];
    assert Init(text) == a && Last(text) == NEWLINE && [] + text == text;
    assert Split(text) == [a] + [[]];
    assert Init([a] + [[]]) == [a] && Init([a]) == [];
    assert NonEmpty([a]) == [a];
  }

  // ---- One run ------------------------------------------------------------

  /** No text is found by two calls. */
  predicate NoneShared(calls: seq<seq<Text>>) {
    forall i, j, s, t :: 0 <= i < j < |calls| && 0 <= s < |calls[i]| && 0 <= t < |calls[j]| ==> calls[i][s] != calls[j][t]
  }

  /** If no two calls find the same text, a run logs the lines in order if and only if the calls came in turn. */
  lemma InOrderExactlyInTurn(run: seq<Race>, steps: seq<Step>)
    requires Execution(run, steps) && Quiet(Last(run))
    requires Run(Ops(steps)).Some? && NoneShared(Found(Ops(steps)))
    ensures Texts(Last(run).out) == Run(Ops(steps)).value.lines <==> InTurn(Last(run).out)
  {
    RacesLoseNothing(run, steps);
    var calls, out := Found(Ops(steps)), Last(run).out;
    if Texts(out) == Concat(calls) {
      var c := OneAfterTheOther(calls);
      TextsAt(out);
      TextsAt(c);
      forall k | 0 <= k < |out| ensures out[k] == c[k] {
        SharedText(out, c, calls, k);
      }
      assert out == c;
    }
  }

  lemma SharedText(out: seq<Line>, c: seq<Line>, calls: seq<seq<Text>>, k: nat)
    requires Interleaves(out, calls) && Interleaves(c, calls) && NoneShared(calls)
    requires k < |out| && k < |c| && out[k].text == c[k].text
    ensures out[k] == c[k]
  {
    LineIsFrom(out, k);
    LineIsFrom(c, k);
  }
}
