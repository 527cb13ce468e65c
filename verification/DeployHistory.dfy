/**
 What a deployment's state and the error it reports mean, told from the steps: which calls failed, and what the
 three contexts were at the moment each of them was looked at.
 */
module DeployHistory {
  import opened Wrappers
  import opened Sequences
  import opened DeployErrors

  ghost predicate Happened(steps: seq<Step>, step: Step, n: nat) {
    exists m :: 0 <= m < n && m < |steps| && steps[m] == step
  }

  lemma HappenedNext(steps: seq<Step>, step: Step, n: nat)
    requires n < |steps|
    ensures Happened(steps, step, n + 1) <==> Happened(steps, step, n) || steps[n] == step
  {
    if Happened(steps, step, n + 1) && steps[n] != step {
      var m :| 0 <= m < n + 1 && steps[m] == step;
      assert m < n;
    }
  }

  // ---- The contexts -------------------------------------------------------

  lemma OverallStep(s: State, step: Step)
    requires Enabled(s, step)
    ensures Do(s, step).overall == match step
                                   case OuterCancel => Canceled
                                   case OverallTimer => DeadlineExceeded
                                   case _ => s.overall
    ensures step.OuterCancel? || step.OverallTimer? ==> s.overall.Active?
  {
  }

  /** The overall context ends by its own timer or from outside, whichever comes first. */
  lemma {:induction false} OverallFollowsItsTimer(run: seq<State>, steps: seq<Step>, n: nat)
    requires Execution(run, steps) && n <= |steps|
    ensures run[n].overall == DeadlineExceeded <==> Happened(steps, OverallTimer, n)
    ensures run[n].overall == Canceled <==> Happened(steps, OuterCancel, n)
  {
    if n > 0 {
      OverallFollowsItsTimer(run, steps, n - 1);
      HappenedNext(steps, OverallTimer, n - 1);
      HappenedNext(steps, OuterCancel, n - 1);
      var s, step := run[n - 1], steps[n - 1];
      assert Enabled(s, step) && run[n] == Do(s, step);
      OverallStep(s, step);
    }
  }

  lemma GroupStep(s: State, step: Step)
    requires Enabled(s, step)
    ensures Do(s, step).group == match step
                                 case CancelGroup => if s.group.Active? then Canceled else s.group
                                 case GroupFollows => s.overall
                                 case _ => s.group
    ensures step.GroupFollows? ==> s.group.Active? && !s.overall.Active?
  {
  }

  /** The group ends with the overall context, or when the recorded failure cancels it. */
  lemma {:induction false} GroupEnds(run: seq<State>, steps: seq<Step>, n: nat)
    requires Execution(run, steps) && n <= |steps|
    ensures !run[n].group.Active? <==> Happened(steps, GroupFollows, n) || Happened(steps, CancelGroup, n)
    ensures Happened(steps, GroupFollows, n) ==> run[n].group == run[n].overall
    ensures !Happened(steps, GroupFollows, n) ==> run[n].group != DeadlineExceeded
  {
    if n > 0 {
      GroupEnds(run, steps, n - 1);
      HappenedNext(steps, GroupFollows, n - 1);
      HappenedNext(steps, CancelGroup, n - 1);
      GroupStep(run[n - 1], steps[n - 1]);
      OverallStep(run[n - 1], steps[n - 1]);
    }
  }

  lemma CancellerStep(s: State, step: Step)
    requires Enabled(s, step)
    ensures Do(s, step).canceller == match step
                                     case Record(i) => Some(i)
                                     case CancelGroup => None
                                     case _ => s.canceller
    ensures Do(s, step).recorded.Some? <==> s.recorded.Some? || step.Record?
    ensures step.Record? ==> s.recorded.None?
    ensures step.CancelGroup? ==> s.canceller.Some?
  {
  }

  /** Whoever recorded has the group still to cancel exactly until it is cancelled. */
  lemma {:induction false} RecorderCancels(run: seq<State>, steps: seq<Step>, i: nat, n: nat)
    requires Execution(run, steps) && n <= |steps|
    ensures run[n].canceller == Some(i) <==> Happened(steps, Record(i), n) && !Happened(steps, CancelGroup, n)
    ensures run[n].canceller.Some? || Happened(steps, CancelGroup, n) ==> run[n].recorded.Some?
  {
    if n > 0 {
      RecorderCancels(run, steps, i, n - 1);
      HappenedNext(steps, Record(i), n - 1);
      HappenedNext(steps, CancelGroup, n - 1);
      var s, step := run[n - 1], steps[n - 1];
      assert Enabled(s, step) && run[n] == Do(s, step);
      CancellerStep(s, step);
      if Happened(steps, Record(i), n - 1) {
        var m :| 0 <= m < n - 1 && steps[m] == Record(i);
        assert run[m + 1] == Do(run[m], steps[m]);
        RecordedStays(run, steps, m + 1, n - 1);
      }
    }
  }

  // ---- A component's own budget -------------------------------------------

  /** Step m ends the own context of component i with a deadline: its own, or the overall one through the group. */
  predicate Expires(run: seq<State>, steps: seq<Step>, i: nat, m: nat) {
    && m < |steps| && m < |run|
    && (steps[m] == HealthTimer(i) || (steps[m] == OwnFollows(i) && run[m].group == DeadlineExceeded))
  }

  ghost predicate Expired(run: seq<State>, steps: seq<Step>, i: nat, n: nat) {
    exists m: nat :: m < n && Expires(run, steps, i, m)
  }

  lemma ExpiredNext(run: seq<State>, steps: seq<Step>, i: nat, n: nat)
    requires n < |steps|
    ensures Expired(run, steps, i, n + 1) <==> Expired(run, steps, i, n) || Expires(run, steps, i, n)
  {
    if Expired(run, steps, i, n + 1) && !Expires(run, steps, i, n) {
      var m: nat :| m < n + 1 && Expires(run, steps, i, m);
      assert m < n;
    }
  }

  /** The own context after a step, if the component still has one. */
  lemma OwnStep(s: State, step: Step, i: nat)
    requires Enabled(s, step) && i < |s.components|
    ensures var c, c' := s.components[i], Do(s, step).components[i];
            OwnContext(c').Some? ==>
              if step == DeploySucceeds(i) then c.Deploying? && OwnContext(c') == Some(Active)
              else OwnContext(c).Some? && OwnContext(c') == match step
                     case HealthTimer(j) => if j == i then Some(DeadlineExceeded) else OwnContext(c)
                     case OwnFollows(j) => if j == i then Some(s.group) else OwnContext(c)
                     case _ => OwnContext(c)
    ensures step == HealthTimer(i) || step == OwnFollows(i) ==> OwnContext(s.components[i]) == Some(Active)
  {
  }

  lemma {:induction false} NotYetExpired(run: seq<State>, steps: seq<Step>, i: nat, n: nat)
    requires Execution(run, steps) && n <= |steps| && i < |run[n].components| && run[n].components[i].Deploying?
    ensures !Expired(run, steps, i, n)
  {
    if n > 0 {
      assert Enabled(run[n - 1], steps[n - 1]) && run[n] == Do(run[n - 1], steps[n - 1]);
      NotYetExpired(run, steps, i, n - 1);
      ExpiredNext(run, steps, i, n - 1);
    }
  }

  /** While a component has its own context, that has met a deadline exactly if a step ended it with one. */
  lemma {:induction false} OwnMeetsItsDeadline(run: seq<State>, steps: seq<Step>, i: nat, n: nat)
    requires Execution(run, steps) && n <= |steps| && i < |run[n].components| && OwnContext(run[n].components[i]).Some?
    ensures OwnContext(run[n].components[i]) == Some(DeadlineExceeded) <==> Expired(run, steps, i, n)
  {
    if n > 0 {
      assert run[n] == Do(run[n - 1], steps[n - 1]);
      OwnStep(run[n - 1], steps[n - 1], i);
      ExpiredNext(run, steps, i, n - 1);
      if steps[n - 1] == DeploySucceeds(i) {
        NotYetExpired(run, steps, i, n - 1);
      } else {
        OwnMeetsItsDeadline(run, steps, i, n - 1);
      }
    }
  }

  // ---- What the reported error says ---------------------------------------

  /** Step d is the call of component i that failed with f. */
  predicate Fails(run: seq<State>, steps: seq<Step>, i: nat, f: Fault, d: nat) {
    && d < |steps| && d < |run|
    && (steps[d] == DeployFails(i, f.code) || steps[d] == HealthFails(i, f.code))
    && f == Fault(i, f.code, run[d].group.Active?)
  }

  /** Where the goroutine of a component failed and looked at the three contexts. */
  datatype Trail = Trail(fails: nat, overall: nat, own: nat, group: nat)

  predicate LooksOverall(run: seq<State>, steps: seq<Step>, i: nat, f: Fault, t: Trail) {
    t.fails < t.overall < |steps| && Fails(run, steps, i, f, t.fails) && steps[t.overall] == LookOverall(i)
  }

  predicate LooksOwn(run: seq<State>, steps: seq<Step>, i: nat, f: Fault, t: Trail) {
    && LooksOverall(run, steps, i, f, t) && t.overall < t.own < |steps| && t.own < |run| && steps[t.own] == LookOwn(i)
    && i < |run[t.own].components|
  }

  predicate LooksGroup(run: seq<State>, steps: seq<Step>, i: nat, f: Fault, t: Trail) {
    LooksOwn(run, steps, i, f, t) && t.own < t.group < |steps| && steps[t.group] == LookGroup(i)
  }

  /** The error has the shape that the three contexts, each at the moment it was looked at, call for. */
  predicate SaysWhatWasSeen(run: seq<State>, err: ComponentError, i: nat, t: Trail)
    requires t.overall < |run| && t.own < |run| && t.group < |run| && i < |run[t.own].components|
  {
    var overall, own, group := run[t.overall].overall, OwnContext(run[t.own].components[i]), run[t.group].group;
    && (err.OverallTimeout? <==> overall == DeadlineExceeded)
    && (err.NotHealthy? <==> overall != DeadlineExceeded && own == Some(DeadlineExceeded))
    && (err.Abandoned? <==> overall != DeadlineExceeded && own != Some(DeadlineExceeded) && group != Active)
    && (err.Own? <==> overall != DeadlineExceeded && own != Some(DeadlineExceeded) && group == Active)
  }

  predicate Traced(run: seq<State>, steps: seq<Step>, i: nat, c: Component, n: nat, t: Trail)
    requires n <= |steps| < |run|
  {
    match c
    case Failed(f, _) => t.fails < n && Fails(run, steps, i, f, t.fails)
    case SawOverall(f, _, overall) => t.overall < n && LooksOverall(run, steps, i, f, t) && overall == run[t.overall].overall
    case SawOwn(f, overall, seen) =>
      && t.own < n && LooksOwn(run, steps, i, f, t)
      && overall == run[t.overall].overall && seen == OwnContext(run[t.own].components[i])
    case Returned(err) => t.group < n && LooksGroup(run, steps, i, err.f, t) && SaysWhatWasSeen(run, err, i, t)
    case _ => true
  }

  /** Only the failing calls and the looks of the component itself extend its trail. */
  function Extend(t: Trail, step: Step, i: nat, n: nat): Trail {
    match step
    case DeployFails(j, _) => if j == i then t.(fails := n) else t
    case HealthFails(j, _) => if j == i then t.(fails := n) else t
    case LookOverall(j) => if j == i then t.(overall := n) else t
    case LookOwn(j) => if j == i then t.(own := n) else t
    case LookGroup(j) => if j == i then t.(group := n) else t
    case _ => t
  }

  predicate Extends(step: Step, i: nat) {
    (step.DeployFails? || step.HealthFails? || step.LookOverall? || step.LookOwn? || step.LookGroup?) && step.i == i
  }

  lemma TraceExtends(run: seq<State>, steps: seq<Step>, i: nat, n: nat, t: Trail)
    requires Execution(run, steps) && n < |steps| && i < |run[n].components| && Extends(steps[n], i)
    requires Traced(run, steps, i, run[n].components[i], n, t)
    ensures i < |run[n + 1].components|
    ensures Traced(run, steps, i, run[n + 1].components[i], n + 1, Extend(t, steps[n], i, n))
  {
    assert Enabled(run[n], steps[n]) && run[n + 1] == Do(run[n], steps[n]);
  }

  lemma TraceStays(run: seq<State>, steps: seq<Step>, i: nat, n: nat, t: Trail)
    requires Execution(run, steps) && n < |steps| && i < |run[n].components| && !Extends(steps[n], i)
    requires Traced(run, steps, i, run[n].components[i], n, t)
    ensures i < |run[n + 1].components| && Traced(run, steps, i, run[n + 1].components[i], n + 1, t)
  {
    assert Enabled(run[n], steps[n]) && run[n + 1] == Do(run[n], steps[n]);
  }

  lemma {:induction false} TraceOf(run: seq<State>, steps: seq<Step>, i: nat, n: nat) returns (t: Trail)
    requires Execution(run, steps) && n <= |steps| && i < |run[n].components|
    ensures Traced(run, steps, i, run[n].components[i], n, t)
    decreases n
  {
    if n == 0 {
      t := Trail(0, 0, 0, 0);
    } else {
      assert run[n] == Do(run[n - 1], steps[n - 1]);
      t := TraceOf(run, steps, i, n - 1);
      if Extends(steps[n - 1], i) {
        TraceExtends(run, steps, i, n - 1, t);
        t := Extend(t, steps[n - 1], i, n - 1);
      } else {
        TraceStays(run, steps, i, n - 1, t);
      }
    }
  }

  /**
   The error that ends a deployment is of a call that failed, and its shape is the one that the three contexts
   called for, each as it was when that component looked at it.
   */
  lemma ReportSaysWhatWasSeen(run: seq<State>, steps: seq<Step>) returns (t: Trail)
    requires Execution(run, steps) && Last(run).recorded.Some?
    ensures var err := Last(run).recorded.value;
            LooksGroup(run, steps, err.f.component, err.f, t) && SaysWhatWasSeen(run, err, err.f.component, t)
  {
    var k := FirstToRecordIsReported(run, steps);
    assert Enabled(run[k], steps[k]);
    t := TraceOf(run, steps, steps[k].i, k);
  }

  /** Unless the whole deployment ran out of time, "not healthy" means that the component's own budget ran out. */
  lemma NotHealthyIsTheOwnBudget(run: seq<State>, steps: seq<Step>)
    requires Execution(run, steps) && Last(run).recorded.Some? && Last(run).recorded.value.NotHealthy?
    requires Last(run).overall != DeadlineExceeded
    ensures Happened(steps, HealthTimer(Last(run).recorded.value.f.component), |steps|)
  {
    var i := Last(run).recorded.value.f.component;
    var t := ReportSaysWhatWasSeen(run, steps);
    OwnMeetsItsDeadline(run, steps, i, t.own);
    var m: nat :| m < t.own && Expires(run, steps, i, m);
    GroupEnds(run, steps, m);
    OverallFollowsItsTimer(run, steps, m);
    OverallFollowsItsTimer(run, steps, |steps|);
  }

  // ---- How the components end ---------------------------------------------

  predicate IsFailure(step: Step, i: nat) {
    (step.DeployFails? || step.HealthFails?) && step.i == i
  }

  ghost predicate HasFailed(steps: seq<Step>, i: nat, n: nat) {
    exists m :: 0 <= m < n && m < |steps| && IsFailure(steps[m], i)
  }

  predicate IsFailing(c: Component) {
    c.Failed? || c.SawOverall? || c.SawOwn? || c.Returned? || c.Finished?
  }

  lemma EndStep(s: State, step: Step, i: nat)
    requires Enabled(s, step) && i < |s.components|
    ensures var c, c' := s.components[i], Do(s, step).components[i];
            && (IsFailing(c') <==> IsFailing(c) || IsFailure(step, i))
            && (c'.Succeeded? <==> c.Succeeded? || step == HealthSucceeds(i))
            && (c'.Checking? <==> step == DeploySucceeds(i) || (c.Checking? && !IsFailure(step, i) && step != HealthSucceeds(i)))
            && (c'.Finished? <==> c.Finished? || step == Record(i) || step == Skip(i))
  {
  }

  /** A component has succeeded exactly if its health check did, and is failing or finished exactly if a call of it failed. */
  lemma {:induction false} ComponentsEnd(run: seq<State>, steps: seq<Step>, i: nat, n: nat)
    requires Execution(run, steps) && n <= |steps|
    ensures |run[n].components| == |run[0].components|
    ensures i < |run[0].components| ==> (run[n].components[i].Succeeded? <==> Happened(steps, HealthSucceeds(i), n))
    ensures i < |run[0].components| ==> (IsFailing(run[n].components[i]) <==> HasFailed(steps, i, n))
  {
    if n > 0 {
      ComponentsEnd(run, steps, i, n - 1);
      assert Enabled(run[n - 1], steps[n - 1]) && run[n] == Do(run[n - 1], steps[n - 1]);
      HappenedNext(steps, HealthSucceeds(i), n - 1);
      HasFailedNext(steps, i, n - 1);
      if i < |run[0].components| {
        EndStep(run[n - 1], steps[n - 1], i);
      }
    }
  }

  lemma HasFailedNext(steps: seq<Step>, i: nat, n: nat)
    requires n < |steps|
    ensures HasFailed(steps, i, n + 1) <==> HasFailed(steps, i, n) || IsFailure(steps[n], i)
  {
    if HasFailed(steps, i, n + 1) && !IsFailure(steps[n], i) {
      var m :| 0 <= m < n + 1 && IsFailure(steps[m], i);
      assert m < n;
    }
  }

  /** When all goroutines are through, an error is returned exactly if a call of some component failed. */
  lemma ErrorExactlyOnFailedCall(run: seq<State>, steps: seq<Step>)
    requires Execution(run, steps)
    requires forall i :: 0 <= i < |Last(run).components| ==> Last(run).components[i].Succeeded? || Last(run).components[i].Finished?
    ensures Last(run).recorded.Some? <==> exists i :: 0 <= i < |run[0].components| && HasFailed(steps, i, |steps|)
  {
    WaitReturnsErrorExactlyOnFailure(run, steps);
    forall i: nat ensures |Last(run).components| == |run[0].components|
    ensures i < |run[0].components| ==> (IsFailing(Last(run).components[i]) <==> HasFailed(steps, i, |steps|)) {
      ComponentsEnd(run, steps, i, |steps|);
    }
  }
}
