/**
 Concurrent deployment of the components (deploy/deploy.go `deployComponents`, `componentErr`): which of the
 errors of an errgroup, whose first failure cancels all siblings, the caller gets to see.

 Every look at a context is a step of its own, so cancellations and timers may strike between any two of them.
 The errgroup runs its once-only section as record, then cancel.
 */
module DeployErrors {
  import opened Wrappers
  import opened Sequences

  /** The state of a context; once not Active it never changes again. */
  datatype Context = Active | Canceled | DeadlineExceeded

  /** What a call returned: by which component, and whether the group was still active at that moment. */
  datatype Fault = Fault(component: nat, code: int, groupActive: bool)

  /** The four shapes of error the caller can be given. */
  datatype ComponentError =
    | OverallTimeout(f: Fault)  // did not finish before the overall deployment timeout expired
    | NotHealthy(f: Fault)      // was not healthy within its own budget
    | Abandoned(f: Fault)       // abandoned before completing
    | Own(f: Fault)             // the error as it is

  /** `componentErr`; `own` is absent while the component is still deploying. */
  function ComponentErr(overall: Context, own: Option<Context>, group: Context, f: Fault): ComponentError {
    if overall == DeadlineExceeded then OverallTimeout(f)
    else if own == Some(DeadlineExceeded) then NotHealthy(f)
    else if group != Active then Abandoned(f)
    else Own(f)
  }

  /** How far the goroutine of a component is; the last three stages belong to `componentErr`. */
  datatype Component =
    | Deploying
    | Checking(health: Context)
    | Succeeded
    | Failed(f: Fault, own: Option<Context>)
    | SawOverall(f: Fault, own: Option<Context>, overall: Context)
    | SawOwn(f: Fault, overall: Context, seen: Option<Context>)
    | Returned(err: ComponentError)
    | Finished

  /** `canceller`: the component inside the errgroup's once-only section, between recording and cancelling. */
  datatype State = State(
    components: seq<Component>,
    overall: Context,
    group: Context,
    recorded: Option<ComponentError>,
    canceller: Option<nat>)

  datatype Step =
    | DeployFails(i: nat, code: int)
    | DeploySucceeds(i: nat)
    | HealthFails(i: nat, code: int)
    | HealthSucceeds(i: nat)
    | HealthTimer(i: nat)      // the component's own budget runs out
    | OwnFollows(i: nat)       // the end of the group reaches the component's own context
    | LookOverall(i: nat)
    | LookOwn(i: nat)
    | LookGroup(i: nat)
    | Record(i: nat)
    | CancelGroup
    | Skip(i: nat)             // another error was recorded first
    | OuterCancel
    | OverallTimer
    | GroupFollows             // the end of the overall context reaches the group

  predicate Enabled(s: State, step: Step) {
    match step
    case DeployFails(i, _) => i < |s.components| && s.components[i].Deploying?
    case DeploySucceeds(i) => i < |s.components| && s.components[i].Deploying?
    case HealthFails(i, _) => i < |s.components| && s.components[i].Checking?
    case HealthSucceeds(i) => i < |s.components| && s.components[i].Checking?
    case HealthTimer(i) => i < |s.components| && OwnContext(s.components[i]) == Some(Active)
    case OwnFollows(i) => i < |s.components| && OwnContext(s.components[i]) == Some(Active) && s.group != Active
    case LookOverall(i) => i < |s.components| && s.components[i].Failed?
    case LookOwn(i) => i < |s.components| && s.components[i].SawOverall?
    case LookGroup(i) => i < |s.components| && s.components[i].SawOwn?
    case Record(i) => i < |s.components| && s.components[i].Returned? && s.recorded.None?
    case CancelGroup => s.canceller.Some?
    case Skip(i) => i < |s.components| && s.components[i].Returned? && s.recorded.Some? && s.canceller.None?
    case OuterCancel => s.overall.Active?
    case OverallTimer => s.overall.Active?
    case GroupFollows => s.overall != Active && s.group.Active?
  }

  /** The health context of a component, while its value still matters. */
  function OwnContext(c: Component): Option<Context> {
    match c
    case Checking(own) => Some(own)
    case Failed(_, own) => own
    case SawOverall(_, own, _) => own
    case _ => None
  }

  function SetOwn(c: Component, own: Context): Component
    requires OwnContext(c).Some?
  {
    match c
    case Checking(_) => Checking(own)
    case Failed(f, _) => Failed(f, Some(own))
    case SawOverall(f, _, overall) => SawOverall(f, Some(own), overall)
  }

  function Move(s: State, i: nat, c: Component): State
    requires i < |s.components|
  {
    s.(components := s.components[i := c])
  }

  function Do(s: State, step: Step): State
    requires Enabled(s, step)
  {
    match step
    case DeployFails(i, code) => Move(s, i, Failed(Fault(i, code, s.group.Active?), None))
    case DeploySucceeds(i) => Move(s, i, Checking(Active))
    case HealthFails(i, code) => Move(s, i, Failed(Fault(i, code, s.group.Active?), Some(s.components[i].health)))
    case HealthSucceeds(i) => Move(s, i, Succeeded)
    case HealthTimer(i) => Move(s, i, SetOwn(s.components[i], DeadlineExceeded))
    case OwnFollows(i) => Move(s, i, SetOwn(s.components[i], s.group))
    case LookOverall(i) => Move(s, i, SawOverall(s.components[i].f, s.components[i].own, s.overall))
    case LookOwn(i) => Move(s, i, SawOwn(s.components[i].f, s.components[i].overall, s.components[i].own))
    case LookGroup(i) =>
      var c := s.components[i];
      Move(s, i, Returned(ComponentErr(c.overall, c.seen, s.group, c.f)))
    case Record(i) => Move(s, i, Finished).(recorded := Some(s.components[i].err), canceller := Some(i))
    case CancelGroup => s.(canceller := None, group := if s.group.Active? then Canceled else s.group)
    case Skip(i) => Move(s, i, Finished)
    case OuterCancel => s.(overall := Canceled)
    case OverallTimer => s.(overall := DeadlineExceeded)
    case GroupFollows => s.(group := s.overall)
  }

  predicate Initial(s: State) {
    && s.overall.Active? && s.group.Active? && s.recorded.None? && s.canceller.None?
    && forall i :: 0 <= i < |s.components| ==> s.components[i].Deploying?
  }

  ghost predicate Behaviour(run: seq<State>, steps: seq<Step>) {
    && |run| == |steps| + 1
    && forall i :: 0 <= i < |steps| ==> Enabled(run[i], steps[i]) && run[i + 1] == Do(run[i], steps[i])
  }

  ghost predicate Execution(run: seq<State>, steps: seq<Step>) {
    Behaviour(run, steps) && Initial(run[0])
  }

  // ---- Which error is recorded --------------------------------------------

  /** The fault a component carries was its own; if not raised in an active group, the group is no longer active. */
  predicate FaultOf(s: State, i: nat, f: Fault) {
    f.component == i && (!f.groupActive ==> s.group != Active)
  }

  predicate ComponentInvariant(s: State, i: nat)
    requires i < |s.components|
  {
    match s.components[i]
    case Failed(f, _) => FaultOf(s, i, f)
    case SawOverall(f, _, overall) => FaultOf(s, i, f) && (overall == DeadlineExceeded ==> s.overall == DeadlineExceeded)
    case SawOwn(f, overall, _) => FaultOf(s, i, f) && (overall == DeadlineExceeded ==> s.overall == DeadlineExceeded)
    case Returned(err) =>
      && FaultOf(s, i, err.f)
      && (err.OverallTimeout? ==> s.overall == DeadlineExceeded)
      && (err.Abandoned? ==> s.group != Active)
    case _ => true
  }

  ghost predicate Invariant(s: State) {
    && (forall i :: 0 <= i < |s.components| ==> ComponentInvariant(s, i))
    && (s.group != Active ==> s.recorded.Some? || s.overall != Active)
    && (s.canceller.Some? ==> s.recorded.Some?)
    && (forall i :: 0 <= i < |s.components| && s.components[i].Finished? ==> s.recorded.Some?)
    && (s.recorded.Some? ==>
          var err := s.recorded.value;
          && err.f.component < |s.components| && s.components[err.f.component].Finished?
          && (err.OverallTimeout? ==> s.overall == DeadlineExceeded)
          && (err.Abandoned? || !err.f.groupActive ==> s.overall != Active))
  }

  lemma ComponentStep(s: State, step: Step, i: nat)
    requires Invariant(s) && Enabled(s, step) && i < |s.components|
    ensures ComponentInvariant(Do(s, step), i)
  {
    assert ComponentInvariant(s, i);
  }

  lemma RecordKeepsInvariant(s: State, i: nat)
    requires Invariant(s) && Enabled(s, Record(i))
    ensures Invariant(Do(s, Record(i)))
  {
    assert ComponentInvariant(s, i);
    forall j | 0 <= j < |s.components| ensures ComponentInvariant(Do(s, Record(i)), j) {
      ComponentStep(s, Record(i), j);
    }
  }

  lemma InvariantStep(s: State, step: Step)
    requires Invariant(s) && Enabled(s, step)
    ensures Invariant(Do(s, step))
  {
    if step.Record? {
      RecordKeepsInvariant(s, step.i);
    } else {
      forall j | 0 <= j < |s.components| ensures ComponentInvariant(Do(s, step), j) {
        ComponentStep(s, step, j);
      }
    }
  }

  lemma {:induction false} ExecutionInvariant(run: seq<State>, steps: seq<Step>)
    requires Execution(run, steps)
    ensures Invariant(Last(run))
    decreases |steps|
  {
    if |steps| > 0 {
      assert Execution(Init(run), Init(steps));
      ExecutionInvariant(Init(run), Init(steps));
      InvariantStep(run[|steps| - 1], Last(steps));
    }
  }

  /**
   The error that ends a deployment is a root cause. Without an outer cancellation and within the overall
   deadline it is never the "abandoned" form a failing sibling causes: it is a component's own error, or its own
   health timeout, raised before the group was cancelled.
   */
  lemma RootCauseIsReported(run: seq<State>, steps: seq<Step>)
    requires Execution(run, steps) && Last(run).recorded.Some?
    ensures var err := Last(run).recorded.value;
            && (Last(run).overall.Active? ==> (err.Own? || err.NotHealthy?) && err.f.groupActive)
            && (err.Abandoned? ==> !Last(run).overall.Active?)
            && (err.OverallTimeout? ==> Last(run).overall == DeadlineExceeded)
  {
    ExecutionInvariant(run, steps);
  }

  /** Some run that begins with the steps `first` ends in s. */
  ghost predicate Reachable(s: State, first: seq<Step>) {
    exists run, steps :: Execution(run, steps) && first <= steps && Last(run) == s
  }

  lemma Reach(s: State, first: seq<Step>, step: Step)
    requires Reachable(s, first) && Enabled(s, step)
    ensures Reachable(Do(s, step), first)
  {
    var run, steps :| Execution(run, steps) && first <= steps && Last(run) == s;
    assert Execution(run + [Do(s, step)], steps + [step]) && first <= steps + [step];
  }

  /** After an outer cancellation the caller may well be given the "abandoned" form, with no root cause. */
  lemma AbandonedAfterOuterCancel(code: int)
    ensures exists s :: Reachable(s, []) && s.overall == Canceled && s.recorded == Some(Abandoned(Fault(0, code, false)))
  {
    var s0 := State([Deploying], Active, Active, None, None);
    assert Execution([s0], []);
    Reach(s0, [], OuterCancel);
    var s1 := s0.(overall := Canceled);
    Reach(s1, [], GroupFollows);
    var s2 := s1.(group := Canceled);
    Reach(s2, [], DeployFails(0, code));
    AbandonedIsRecorded(s2, Fault(0, code, false));
  }

  /** A component that failed with the group cancelled gets the "abandoned" form, and records it if it is first. */
  lemma AbandonedIsRecorded(s: State, f: Fault)
    requires s.overall == Canceled && s.group == Canceled && s.recorded.None? && |s.components| == 1 && f.component == 0
    requires Reachable(Move(s, 0, Failed(f, None)), [])
    ensures exists s' :: Reachable(s', []) && s'.overall == Canceled && s'.recorded == Some(Abandoned(f))
  {
    Reach(Move(s, 0, Failed(f, None)), [], LookOverall(0));
    Reach(Move(s, 0, SawOverall(f, None, Canceled)), [], LookOwn(0));
    Reach(Move(s, 0, SawOwn(f, Canceled, None)), [], LookGroup(0));
    Reach(Move(s, 0, Returned(Abandoned(f))), [], Record(0));
  }

  /** Once recorded, an error is never replaced. */
  lemma {:induction false} RecordedStays(run: seq<State>, steps: seq<Step>, k: nat, n: nat)
    requires Execution(run, steps) && k <= n < |run| && run[k].recorded.Some?
    ensures run[n].recorded == run[k].recorded
  {
    if k < n {
      RecordedStays(run, steps, k, n - 1);
      assert run[n] == Do(run[n - 1], steps[n - 1]);
    }
  }

  lemma {:induction false} NoneRecorded(run: seq<State>, steps: seq<Step>, n: nat)
    requires Execution(run, steps) && n < |run| && forall j :: 0 <= j < n ==> !steps[j].Record?
    ensures run[n].recorded == None
  {
    if n > 0 {
      NoneRecorded(run, steps, n - 1);
      assert run[n] == Do(run[n - 1], steps[n - 1]);
    }
  }

  lemma RecordsOnce(run: seq<State>, steps: seq<Step>, j: nat, k: nat)
    requires Execution(run, steps) && j < k < |steps| && steps[j].Record?
    ensures !steps[k].Record?
  {
    assert run[j + 1] == Do(run[j], steps[j]);
    RecordedStays(run, steps, j + 1, k);
    assert Enabled(run[k], steps[k]);
  }

  lemma RecordsOwn(run: seq<State>, steps: seq<Step>, k: nat)
    requires Execution(run, steps) && k < |steps| && steps[k].Record?
    ensures run[k].components[steps[k].i].Returned? && run[k].components[steps[k].i].err.f.component == steps[k].i
  {
    assert Execution(run[..k + 1], steps[..k]);
    ExecutionInvariant(run[..k + 1], steps[..k]);
    assert Enabled(run[k], steps[k]) && ComponentInvariant(run[k], steps[k].i);
  }

  /** The error returned is that of the goroutine that came to record first; there is exactly one such step. */
  lemma FirstToRecordIsReported(run: seq<State>, steps: seq<Step>) returns (k: nat)
    requires Execution(run, steps) && Last(run).recorded.Some?
    ensures k < |steps| && steps[k].Record? && run[k].components[steps[k].i].Returned?
    ensures Last(run).recorded == Some(run[k].components[steps[k].i].err)
    ensures Last(run).recorded.value.f.component == steps[k].i
    ensures forall j :: 0 <= j < |steps| && steps[j].Record? ==> j == k
  {
    if forall j :: 0 <= j < |steps| ==> !steps[j].Record? {
      NoneRecorded(run, steps, |steps|);
    }
    k :| 0 <= k < |steps| && steps[k].Record?;
    RecordsOwn(run, steps, k);
    assert run[k + 1] == Do(run[k], steps[k]);
    RecordedStays(run, steps, k + 1, |steps|);
    forall j | 0 <= j < |steps| && steps[j].Record? ensures j == k {
      if j < k {
        RecordsOnce(run, steps, j, k);
      } else if k < j {
        RecordsOnce(run, steps, k, j);
      }
    }
  }

  /** The component that fails first need not be the one reported: the second to fail may be the first to record. */
  lemma FirstToFailNeedNotBeReported(code0: int, code1: int)
    ensures exists s :: && Reachable(s, [DeployFails(0, code0), DeployFails(1, code1)])
                        && s.overall.Active? && s.recorded == Some(Own(Fault(1, code1, true)))
  {
    var s0 := State([Deploying, Deploying], Active, Active, None, None);
    var f0, f1 := Fault(0, code0, true), Fault(1, code1, true);
    var s1 := s0.(components := [Failed(f0, None), Deploying]);
    var first := [DeployFails(0, code0), DeployFails(1, code1)];
    assert Execution([s0, s1, Move(s1, 1, Failed(f1, None))], first);
    OwnIsRecorded(s1, first, f1);
  }

  lemma OwnIsRecorded(s: State, first: seq<Step>, f: Fault)
    requires s.overall.Active? && s.group.Active? && s.recorded.None? && |s.components| == 2 && f.component == 1
    requires Reachable(Move(s, 1, Failed(f, None)), first)
    ensures Reachable(Move(s, 1, Finished).(recorded := Some(Own(f)), canceller := Some(1)), first)
  {
    Reach(Move(s, 1, Failed(f, None)), first, LookOverall(1));
    Reach(Move(s, 1, SawOverall(f, None, Active)), first, LookOwn(1));
    Reach(Move(s, 1, SawOwn(f, Active, None)), first, LookGroup(1));
    Reach(Move(s, 1, Returned(Own(f))), first, Record(1));
  }

  // ---- When it is certain who is reported ---------------------------------

  /** The deployment can go on from s to t. */
  ghost predicate CanLeadTo(s: State, t: State) {
    exists run, steps :: Behaviour(run, steps) && run[0] == s && Last(run) == t
  }

  lemma GoOn(s: State, t: State, step: Step, t': State)
    requires CanLeadTo(s, t) && Enabled(t, step) && t' == Do(t, step)
    ensures CanLeadTo(s, t')
  {
    var run, steps :| Behaviour(run, steps) && run[0] == s && Last(run) == t;
    assert Behaviour(run + [t'], steps + [step]);
  }

  ghost predicate OthersSucceeded(s: State, i: nat) {
    forall j :: 0 <= j < |s.components| && j != i ==> s.components[j].Succeeded?
  }

  lemma SucceededStay(s: State, step: Step, i: nat)
    requires Enabled(s, step) && OthersSucceeded(s, i)
    ensures OthersSucceeded(Do(s, step), i)
  {
  }

  lemma {:induction false} OnlyOneIsLeft(run: seq<State>, steps: seq<Step>, i: nat, n: nat)
    requires Behaviour(run, steps) && Invariant(run[0]) && OthersSucceeded(run[0], i) && n < |run|
    ensures Invariant(run[n]) && OthersSucceeded(run[n], i)
  {
    if n > 0 {
      OnlyOneIsLeft(run, steps, i, n - 1);
      InvariantStep(run[n - 1], steps[n - 1]);
      SucceededStay(run[n - 1], steps[n - 1], i);
    }
  }

  /** A component that has succeeded stays so, and the error recorded is of one that has not. */
  lemma OnlyOneCanRecord(run: seq<State>, steps: seq<Step>, i: nat)
    requires Behaviour(run, steps) && Invariant(run[0]) && OthersSucceeded(run[0], i)
    ensures Last(run).recorded.Some? ==> Last(run).recorded.value.f.component == i
  {
    OnlyOneIsLeft(run, steps, i, |steps|);
  }

  /** How far a component is from recording its error. */
  function Distance(c: Component): nat {
    match c
    case Deploying => 5
    case Checking(_) => 5
    case Failed(_, _) => 4
    case SawOverall(_, _, _) => 3
    case SawOwn(_, _, _) => 2
    case Returned(_) => 1
    case _ => 0
  }

  /** The next step of a component that fails and hurries to report it. */
  function Hurry(c: Component, j: nat): Step {
    match c
    case Deploying => DeployFails(j, 0)
    case Checking(_) => HealthFails(j, 0)
    case Failed(_, _) => LookOverall(j)
    case SawOverall(_, _, _) => LookOwn(j)
    case SawOwn(_, _, _) => LookGroup(j)
    case _ => Record(j)
  }

  /** Any component that is not through can be the one to record. */
  lemma {:induction false} AnyOtherCanRecord(s: State, t: State, j: nat) returns (t': State)
    requires CanLeadTo(s, t) && Invariant(t) && t.recorded.None? && j < |t.components| && !t.components[j].Succeeded?
    ensures CanLeadTo(s, t') && t'.recorded.Some? && t'.recorded.value.f.component == j
    decreases Distance(t.components[j])
  {
    var c := t.components[j];
    assert !c.Finished? && ComponentInvariant(t, j);
    var u := Do(t, Hurry(c, j));
    GoOn(s, t, Hurry(c, j), u);
    if c.Returned? {
      t' := u;
    } else {
      InvariantStep(t, Hurry(c, j));
      t' := AnyOtherCanRecord(s, u, j);
    }
  }

  /**
   As long as nothing is recorded it is certain that a component is the one reported, if any is, if and only if all
   others have succeeded already. So failing first makes nothing certain.
   */
  lemma ReportIsCertainExactlyWhen(run: seq<State>, steps: seq<Step>, i: nat)
    requires Execution(run, steps) && Last(run).recorded.None?
    ensures (forall t :: CanLeadTo(Last(run), t) && t.recorded.Some? ==> t.recorded.value.f.component == i)
            <==> OthersSucceeded(Last(run), i)
  {
    var s := Last(run);
    ExecutionInvariant(run, steps);
    if OthersSucceeded(s, i) {
      forall t | CanLeadTo(s, t) && t.recorded.Some? ensures t.recorded.value.f.component == i {
        var run', steps' :| Behaviour(run', steps') && run'[0] == s && Last(run') == t;
        OnlyOneCanRecord(run', steps', i);
      }
    } else {
      var j :| 0 <= j < |s.components| && j != i && !s.components[j].Succeeded?;
      assert Behaviour([s], []) && Last([s]) == s;
      var t := AnyOtherCanRecord(s, s, j);
    }
  }

  /** When all goroutines are through, an error is returned exactly if some component failed. */
  lemma WaitReturnsErrorExactlyOnFailure(run: seq<State>, steps: seq<Step>)
    requires Execution(run, steps)
    requires forall i :: 0 <= i < |Last(run).components| ==> Last(run).components[i].Succeeded? || Last(run).components[i].Finished?
    ensures Last(run).recorded.Some? <==> exists i :: 0 <= i < |Last(run).components| && Last(run).components[i].Finished?
  {
    ExecutionInvariant(run, steps);
  }
}
