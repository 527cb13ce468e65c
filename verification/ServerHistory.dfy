/**
 What the state of the server is, told from the steps alone: which demuxes exist under which name, which are
 cancelled, torn down or evicted, which is cached, and who holds the mutex.
 */
module ServerHistory {
  import opened Wrappers
  import opened Sequences
  import opened ServerCache

  ghost predicate Happened(steps: seq<Step>, step: Step, n: nat) {
    exists m :: 0 <= m < n && m < |steps| && steps[m] == step
  }

  lemma HappenedNext(steps: seq<Step>, step: Step, n: nat)
    requires n < |steps|
    ensures Happened(steps, step, n + 1) <==> Happened(steps, step, n) || steps[n] == step
  {
    if Happened(steps, step, n + 1) && steps[n] != step {
      var m :| 0 <= m < n + 1 && steps[m] == step;
      assert m < n;
    }
  }

  // ---- The demuxes --------------------------------------------------------

  lemma FlagsStep(s: Server, step: Step, d: nat)
    requires Enabled(s, step) && d < |Do(s, step).demuxes|
    ensures var s' := Do(s, step);
            && (d >= |s.demuxes| ==> step == Create && d == |s.demuxes| && s'.demuxes[d] == Demux(s.lock.name, s.shutdown, false))
            && (d < |s.demuxes| ==>
                  && s'.demuxes[d].name == s.demuxes[d].name
                  && (s'.demuxes[d].cancelled <==> s.demuxes[d].cancelled || step == Shutdown || step == Cancel(d))
                  && (s'.demuxes[d].tornDown <==> s.demuxes[d].tornDown || step == OnClose(d)))
            && (s'.shutdown <==> s.shutdown || step == Shutdown)
            && (step == Cancel(d) || step == OnClose(d) ==> d < |s.demuxes|)
  {
  }

  lemma SizeStep(s: Server, step: Step)
    requires Enabled(s, step)
    ensures |Do(s, step).demuxes| == |s.demuxes| + if step == Create then 1 else 0
    ensures Do(s, step).shutdown <==> s.shutdown || step == Shutdown
  {
  }

  lemma {:induction false} ShutdownExactlyByClose(run: seq<Server>, steps: seq<Step>, n: nat)
    requires Execution(run, steps) && n <= |steps|
    ensures run[n].shutdown <==> Happened(steps, Shutdown, n)
  {
    if n > 0 {
      ShutdownExactlyByClose(run, steps, n - 1);
      HappenedNext(steps, Shutdown, n - 1);
      assert Enabled(run[n - 1], steps[n - 1]) && run[n] == Do(run[n - 1], steps[n - 1]);
      SizeStep(run[n - 1], steps[n - 1]);
    }
  }

  lemma {:induction false} NotBeforeCreation(run: seq<Server>, steps: seq<Step>, d: nat, n: nat)
    requires Execution(run, steps) && n <= |steps| && d >= |run[n].demuxes|
    ensures !Happened(steps, Cancel(d), n) && !Happened(steps, OnClose(d), n)
  {
    if n > 0 {
      var s, step := run[n - 1], steps[n - 1];
      assert Enabled(s, step) && run[n] == Do(s, step);
      SizeStep(s, step);
      NotBeforeCreation(run, steps, d, n - 1);
      HappenedNext(steps, Cancel(d), n - 1);
      HappenedNext(steps, OnClose(d), n - 1);
    }
  }

  /** A demux is cancelled exactly by its own cancellation or by the shutdown, be it before or after its creation. */
  lemma {:induction false} CancelledExactlyWhen(run: seq<Server>, steps: seq<Step>, d: nat, n: nat)
    requires Execution(run, steps) && n <= |steps| && d < |run[n].demuxes|
    ensures run[n].demuxes[d].cancelled <==> Happened(steps, Shutdown, n) || Happened(steps, Cancel(d), n)
    ensures run[n].demuxes[d].tornDown <==> Happened(steps, OnClose(d), n)
  {
    if n > 0 {
      var s, step := run[n - 1], steps[n - 1];
      assert Enabled(s, step) && run[n] == Do(s, step);
      FlagsStep(s, step, d);
      HappenedNext(steps, Shutdown, n - 1);
      HappenedNext(steps, Cancel(d), n - 1);
      HappenedNext(steps, OnClose(d), n - 1);
      if d < |s.demuxes| {
        CancelledExactlyWhen(run, steps, d, n - 1);
      } else {
        NotBeforeCreation(run, steps, d, n - 1);
        ShutdownExactlyByClose(run, steps, n - 1);
      }
    }
  }

  // ---- The mutex ----------------------------------------------------------

  /** The step ends the call that holds the mutex: the socket was tried, or a live demux found in the cache. */
  predicate Releases(s: Server, step: Step) {
    || step.OpenFails? || step.Create?
    || (step.Look? && s.lock.Looking? && s.lock.name in s.cache && s.cache[s.lock.name] < |s.demuxes|
        && !s.demuxes[s.cache[s.lock.name]].cancelled)
  }

  /** The call that took the mutex at step k, for `name`, still holds it after n steps. */
  ghost predicate Holds(run: seq<Server>, steps: seq<Step>, name: string, n: nat, k: nat) {
    && k < n <= |steps| < |run| && steps[k] == Enter(name)
    && forall m :: k < m < n ==> !Releases(run[m], steps[m])
  }

  ghost predicate IsHeld(run: seq<Server>, steps: seq<Step>, name: string, n: nat) {
    exists k :: Holds(run, steps, name, n, k)
  }

  lemma LockStep(s: Server, step: Step)
    requires Enabled(s, step)
    ensures Do(s, step).lock == match step
              case Enter(name) => Looking(name)
              case Look => if Releases(s, step) then Free else Creating(s.lock.name)
              case OpenFails => Free
              case Create => Free
              case _ => s.lock
    ensures step.Enter? ==> s.lock.Free?
  {
  }

  lemma IsHeldNext(run: seq<Server>, steps: seq<Step>, name: string, n: nat)
    requires n < |steps| < |run|
    ensures IsHeld(run, steps, name, n + 1)
            <==> steps[n] == Enter(name) || (IsHeld(run, steps, name, n) && !Releases(run[n], steps[n]))
  {
    if steps[n] == Enter(name) {
      assert Holds(run, steps, name, n + 1, n);
    }
    if IsHeld(run, steps, name, n) && !Releases(run[n], steps[n]) {
      var k :| Holds(run, steps, name, n, k);
      assert Holds(run, steps, name, n + 1, k);
    }
    if IsHeld(run, steps, name, n + 1) && steps[n] != Enter(name) {
      var k :| Holds(run, steps, name, n + 1, k);
      assert Holds(run, steps, name, n, k);
    }
  }

  /** The mutex is held for a name exactly from the step that took it until the call's result is known. */
  lemma {:induction false} LockIsHeldSince(run: seq<Server>, steps: seq<Step>, name: string, n: nat)
    requires Execution(run, steps) && n <= |steps|
    ensures !run[n].lock.Free? && run[n].lock.name == name <==> IsHeld(run, steps, name, n)
  {
    if n > 0 {
      LockIsHeldSince(run, steps, name, n - 1);
      IsHeldNext(run, steps, name, n - 1);
      var s, step := run[n - 1], steps[n - 1];
      assert Enabled(s, step) && run[n] == Do(s, step);
      LockStep(s, step);
    }
  }

  /** Every demux was created by a call that held the mutex for its name. */
  lemma {:induction false} CreatedUnderItsName(run: seq<Server>, steps: seq<Step>, d: nat, n: nat) returns (k: nat)
    requires Execution(run, steps) && n <= |steps| && d < |run[n].demuxes|
    ensures k < n && steps[k] == Create && |run[k].demuxes| == d && IsHeld(run, steps, run[n].demuxes[d].name, k)
    decreases n
  {
    var s, step := run[n - 1], steps[n - 1];
    assert Enabled(s, step) && run[n] == Do(s, step);
    FlagsStep(s, step, d);
    if d < |s.demuxes| {
      k := CreatedUnderItsName(run, steps, d, n - 1);
    } else {
      k := n - 1;
      LockIsHeldSince(run, steps, s.lock.name, n - 1);
    }
  }

  function Creations(steps: seq<Step>, n: nat): nat
    requires n <= |steps|
  {
    if n == 0 then 0 else Creations(steps, n - 1) + if steps[n - 1] == Create then 1 else 0
  }

  /** Every creation, and nothing else, makes one more demux. */
  lemma {:induction false} EachCreationAddsOne(run: seq<Server>, steps: seq<Step>, n: nat)
    requires Execution(run, steps) && n <= |steps|
    ensures |run[n].demuxes| == Creations(steps, n)
  {
    if n > 0 {
      EachCreationAddsOne(run, steps, n - 1);
      assert Enabled(run[n - 1], steps[n - 1]) && run[n] == Do(run[n - 1], steps[n - 1]);
      SizeStep(run[n - 1], steps[n - 1]);
    }
  }

  // ---- The cache ----------------------------------------------------------

  /** Step m finds d in the cache, cancelled, and so takes it out. */
  predicate Evicts(run: seq<Server>, steps: seq<Step>, d: nat, m: nat) {
    && m < |steps| && m < |run| && steps[m].Look? && run[m].lock.Looking? && d < |run[m].demuxes|
    && run[m].lock.name in run[m].cache && run[m].cache[run[m].lock.name] == d && run[m].demuxes[d].cancelled
  }

  ghost predicate WasEvicted(run: seq<Server>, steps: seq<Step>, d: nat, n: nat) {
    exists m: nat :: m < n && Evicts(run, steps, d, m)
  }

  lemma EvictedStep(run: seq<Server>, steps: seq<Step>, d: nat, n: nat)
    requires Execution(run, steps) && n < |steps| && Invariant(run[n])
    ensures d in run[n + 1].evicted <==> d in run[n].evicted || Evicts(run, steps, d, n)
  {
    assert Enabled(run[n], steps[n]) && run[n + 1] == Do(run[n], steps[n]);
  }

  lemma {:induction false} EvictedExactlyWhen(run: seq<Server>, steps: seq<Step>, d: nat, n: nat)
    requires Execution(run, steps) && n <= |steps|
    ensures d in run[n].evicted <==> WasEvicted(run, steps, d, n)
  {
    if n > 0 {
      EvictedExactlyWhen(run, steps, d, n - 1);
      ExecutionInvariant(run, steps);
      EvictedStep(run, steps, d, n - 1);
      if WasEvicted(run, steps, d, n) && !Evicts(run, steps, d, n - 1) {
        var m: nat :| m < n && Evicts(run, steps, d, m);
        assert m < n - 1;
      }
      if WasEvicted(run, steps, d, n - 1) {
        assert WasEvicted(run, steps, d, n);
      }
    }
  }

  /** A demux is cached, under its own name, exactly until a lookup evicts it or it is torn down. */
  lemma CachedExactlyWhen(run: seq<Server>, steps: seq<Step>, name: string, d: nat, n: nat)
    requires Execution(run, steps) && n <= |steps|
    ensures name in run[n].cache && run[n].cache[name] == d
            <==> && d < |run[n].demuxes| && run[n].demuxes[d].name == name
                 && !WasEvicted(run, steps, d, n) && !Happened(steps, OnClose(d), n)
  {
    ExecutionInvariant(run, steps);
    assert Invariant(run[n]);
    EvictedExactlyWhen(run, steps, d, n);
    if d < |run[n].demuxes| {
      CancelledExactlyWhen(run, steps, d, n);
      assert run[n].demuxes[d].tornDown || d in run[n].evicted || Cached(run[n], d);
    }
  }

  /** What `Close` waits for is what was cached when it listed the demuxes. */
  lemma {:induction false} CollectedIsTheCache(run: seq<Server>, steps: seq<Step>, n: nat)
    requires Execution(run, steps) && n <= |steps|
    ensures run[n].collected.None? <==> !Happened(steps, Collect, n)
    ensures forall m :: 0 <= m < n && steps[m] == Collect ==>
              && run[n].collected.Some?
              && forall d :: d in run[n].collected.value <==> exists name :: name in run[m].cache && run[m].cache[name] == d
  {
    if n > 0 {
      CollectedIsTheCache(run, steps, n - 1);
      HappenedNext(steps, Collect, n - 1);
      assert Enabled(run[n - 1], steps[n - 1]) && run[n] == Do(run[n - 1], steps[n - 1]);
      CollectStep(run[n - 1], steps[n - 1]);
    }
  }

  lemma CollectStep(s: Server, step: Step)
    requires Enabled(s, step)
    ensures step != Collect ==> Do(s, step).collected == s.collected
    ensures step == Collect ==> Do(s, step).collected.Some?
    ensures step == Collect ==>
              forall d :: d in Do(s, step).collected.value <==> exists name :: name in s.cache && s.cache[name] == d
    ensures step == Collect ==> s.collected.None?
  {
  }
}
