/**
 The watcher of pods (pods/status.go): it follows the statuses of pods while a topology deploys, and gives up with
 one error when a pod fails, when an image does not exist, or when an image has been failing to pull for too long.
 */
module PodWatcher {

  import opened Wrappers
  import opened Sequences
  import opened PodStatus

  /** Fifteen minutes, in nanoseconds. */
  const MAX_PULL_TIME := 15 * 60 * 1_000_000_000

  datatype Fault =
    | PodFailed(pod: string)
    | NotFound(namespace: string, pod: string, container: string, image: string)
    | PullTimedOut(namespace: string, pod: string, container: string, image: string)

  datatype Error = Watched(fault: Fault) | Given(text: string)

  predicate Contains(s: string, sub: string) {
    exists i :: 0 <= i <= |s| && sub <= s[i..]
  }

  predicate Pulling(c: Container) {
    !c.ready && c.reason == "ErrImagePull"
  }

  predicate Missing(c: Container) {
    Pulling(c) && Contains(c.message, "code = NotFound")
  }

  /** The pod's first failed pull is more than the allowed time ago. */
  predicate Overdue(starts: map<string, int>, uid: string, now: int) {
    uid in starts && starts[uid] + MAX_PULL_TIME < now
  }

  predicate Fatal(starts: map<string, int>, uid: string, c: Container, now: int) {
    Missing(c) || (Pulling(c) && Overdue(starts, uid, now))
  }

  /** The first fatal container from i on, the number of containers when there is none. */
  function FirstFatal(starts: map<string, int>, uid: string, cs: seq<Container>, now: int, i: nat): (k: nat)
    requires i <= |cs|
    ensures i <= k <= |cs| && (k < |cs| ==> Fatal(starts, uid, cs[k], now))
    ensures forall j :: i <= j < k ==> !Fatal(starts, uid, cs[j], now)
    decreases |cs| - i
  {
    if i == |cs| || Fatal(starts, uid, cs[i], now) then i else FirstFatal(starts, uid, cs, now, i + 1)
  }

  predicate AnyPulling(cs: seq<Container>, n: nat)
    requires n <= |cs|
  {
    exists j :: 0 <= j < n && Pulling(cs[j])
  }

  /** The first failed pull of a pod is remembered. */
  function Started(starts: map<string, int>, uid: string, cs: seq<Container>, now: int, n: nat): map<string, int>
    requires n <= |cs|
  {
    if uid !in starts && AnyPulling(cs, n) then starts[uid := now] else starts
  }

  function FaultOf(s: Status, c: Container): Fault {
    if Missing(c) then NotFound(s.namespace, s.name, c.name, c.image)
    else PullTimedOut(s.namespace, s.name, c.name, c.image)
  }

  predicate Failed(s: Status) {
    !s.ready && s.phase == "Failed"
  }

  datatype Watch = Watch(starts: map<string, int>, error: Option<Fault>)

  /** One status handled; once there is an error nothing is handled any more. */
  function Update(w: Watch, e: Event): Watch {
    var s := e.s;
    if w.error.Some? || s.deleted then w
    else if Failed(s) then w.(error := Some(PodFailed(s.name)))
    else
      var k := FirstFatal(w.starts, s.uid, s.All(), e.now, 0);
      Watch(Started(w.starts, s.uid, s.All(), e.now, k), if k < |s.All()| then Some(FaultOf(s, s.All()[k])) else None)
  }

  function Run(es: seq<Event>): Watch {
    if es == [] then Watch(map[], None) else Update(Run(Init(es)), Last(es))
  }

  class Watcher {
    var podStart: map<string, int>
    var errCh: seq<Fault>
    var cancels: nat

    /** The error channel holds one error at most: a second send would block for ever. */
    ghost predicate Valid()
      reads this
    {
      |errCh| <= 1 && cancels == |errCh|
    }

    ghost function View(): Watch
      reads this
    {
      Watch(podStart, if errCh == [] then None else Some(errCh[0]))
    }

    constructor ()
      ensures Valid() && View() == Run([])
    {
      podStart, errCh, cancels := map[], [], 0;
    }

    method Fail(fault: Fault)
      requires Valid() && errCh == []
      modifies this`errCh, this`cancels
      ensures Valid() && errCh == [fault]
    {
      errCh := errCh + [fault];
      cancels := cancels + 1;
    }

    method UpdatePod(e: Event) returns (ok: bool)
      requires Valid() && errCh == []
      modifies this
      ensures Valid() && View() == Update(old(View()), e)
      ensures ok <==> errCh == []
    {
      var s := e.s;
      if s.deleted {
        return true;
      }
      if !s.ready && s.phase == "Failed" {
        Fail(PodFailed(s.name));
        return false;
      }
      ok := CheckContainers(e, s.containers + s.initContainers);
    }

    method CheckContainers(e: Event, cs: seq<Container>) returns (ok: bool)
      requires Valid() && errCh == []
      modifies this
      ensures Valid() && (ok <==> errCh == [])
      ensures var k := FirstFatal(old(podStart), e.s.uid, cs, e.now, 0);
              && podStart == Started(old(podStart), e.s.uid, cs, e.now, k)
              && errCh == if k < |cs| then [FaultOf(e.s, cs[k])] else []
    {
      var uid := e.s.uid;
      for i := 0 to |cs|
        invariant errCh == [] && Valid()
        invariant podStart == Started(old(podStart), uid, cs, e.now, i)
        invariant FirstFatal(old(podStart), uid, cs, e.now, 0) == FirstFatal(old(podStart), uid, cs, e.now, i)
      {
        var c := cs[i];
        if c.ready {
          continue;
        }
        if c.reason == "ErrImagePull" {
          if Contains(c.message, "code = NotFound") {
            Fail(NotFound(e.s.namespace, e.s.name, c.name, c.image));
            return false;
          }
          if uid in podStart {
            if podStart[uid] + MAX_PULL_TIME < e.now {
              Fail(PullTimedOut(e.s.namespace, e.s.name, c.name, c.image));
              return false;
            }
          } else {
            podStart := podStart[uid := e.now];
          }
        }
      }
      return true;
    }

    /** The loop over the statuses that arrive before the channel is closed or the context is done. */
    method Follow(es: seq<Event>) returns (handled: nat)
      requires Valid() && View() == Run([])
      modifies this
      ensures Valid() && View() == Run(es)
      ensures handled <= |es| && (errCh == [] ==> handled == |es|)
      ensures forall n :: 0 <= n <= |es| ==> (Run(es[..n]).error.Some? <==> errCh != [] && handled <= n)
    {
      handled := 0;
      while handled < |es|
        invariant handled <= |es| && Valid() && errCh == []
        invariant View() == Run(es[..handled])
      {
        var ok := UpdatePod(es[handled]);
        assert Init(es[..handled + 1]) == es[..handled];
        handled := handled + 1;
        if !ok {
          StopsAtError(es, handled);
          assert es[..|es|] == es;
          return;
        }
      }
      assert es[..|es|] == es;
      NoErrorBefore(es, handled);
    }

    /** The watcher's error, if there is one, goes before the error of the deployment. */
    method Cleanup(err: Option<Error>) returns (r: Option<Error>)
      modifies this`errCh
      ensures r == if old(View()).error.Some? then Some(Watched(old(View()).error.value)) else err
      ensures errCh == if old(errCh) == [] then [] else old(errCh)[1..]
    {
      if |errCh| > 0 {
        r := Some(Watched(errCh[0]));
        errCh := errCh[1..];
      } else {
        r := err;
      }
    }
  }

  lemma {:induction false} NoErrorBefore(es: seq<Event>, n: nat)
    requires n <= |es| && Run(es[..n]).error.None?
    ensures forall m :: 0 <= m <= n ==> Run(es[..m]).error.None?
  {
    if n > 0 {
      assert Init(es[..n]) == es[..n - 1];
      NoErrorBefore(es, n - 1);
    }
  }

  lemma {:induction false} ErrorStays(es: seq<Event>, n: nat, m: nat)
    requires n <= m <= |es| && Run(es[..n]).error.Some?
    ensures Run(es[..m]) == Run(es[..n])
    decreases m
  {
    if n < m {
      assert Init(es[..m]) == es[..m - 1];
      ErrorStays(es, n, m - 1);
    }
  }

  lemma StopsAtError(es: seq<Event>, n: nat)
    requires 0 < n <= |es| && Run(es[..n]).error.Some? && Run(es[..n - 1]).error.None?
    ensures Run(es[..|es|]) == Run(es[..n])
    ensures forall m :: 0 <= m <= |es| ==> (Run(es[..m]).error.Some? <==> n <= m)
  {
    NoErrorBefore(es, n - 1);
    forall m | n <= m <= |es| ensures Run(es[..m]) == Run(es[..n]) {
      ErrorStays(es, n, m);
    }
  }

  /** The event is a failed pull of a live pod. */
  predicate FailedPull(e: Event) {
    !e.s.deleted && !Failed(e.s) && AnyPulling(e.s.All(), |e.s.All()|)
  }

  /** When the pod first failed to pull an image, told from the events alone. */
  function FirstPull(es: seq<Event>, uid: string): Option<int> {
    if es == [] then None
    else if FirstPull(Init(es), uid).Some? then FirstPull(Init(es), uid)
    else if Last(es).s.uid == uid && FailedPull(Last(es)) then Some(Last(es).now)
    else None
  }

  lemma {:induction false} StartsAreFirstPulls(es: seq<Event>)
    requires Run(es).error.None?
    ensures forall uid :: uid in Run(es).starts <==> FirstPull(es, uid).Some?
    ensures forall uid :: uid in Run(es).starts ==> Run(es).starts[uid] == FirstPull(es, uid).value
  {
    if es != [] {
      StartsAreFirstPulls(Init(es));
    }
  }

  /** A container of the status that ends the watch, by what the events say alone. */
  predicate Condemns(es: seq<Event>, c: Container)
    requires es != []
  {
    var first := FirstPull(Init(es), Last(es).s.uid);
    Missing(c) || (Pulling(c) && first.Some? && first.value + MAX_PULL_TIME < Last(es).now)
  }

  /**
   When the watcher gives up, without its state: the pod is not being deleted, and it has failed, or an image of
   it does not exist, or an image fails to pull more than the allowed time after the pod's first failed pull.
   */
  lemma GivesUpExactlyWhen(es: seq<Event>)
    requires es != [] && Run(Init(es)).error.None?
    ensures var s, error := Last(es).s, Run(es).error;
            && (error.Some? <==> !s.deleted && (Failed(s) || exists c :: c in s.All() && Condemns(es, c)))
            && (error.Some? && Failed(s) ==> error.value == PodFailed(s.name))
            && (error.Some? && !Failed(s) ==>
                  exists k :: && 0 <= k < |s.All()| && Condemns(es, s.All()[k]) && error.value == FaultOf(s, s.All()[k])
                              && forall j :: 0 <= j < k ==> !Condemns(es, s.All()[j]))
  {
    var before, s, now := Run(Init(es)), Last(es).s, Last(es).now;
    StartsAreFirstPulls(Init(es));
    assert forall c :: Condemns(es, c) <==> Fatal(before.starts, s.uid, c, now);
    if !s.deleted && !Failed(s) {
      var k := FirstFatal(before.starts, s.uid, s.All(), now, 0);
      assert k < |s.All()| ==> s.All()[k] in s.All();
    }
  }

  // ---- What ends a watch, told from the statuses alone --------------------

  ghost predicate Within(s: string, sub: string) {
    exists a: string, b: string :: s == a + sub + b
  }

  lemma ContainsIsWithin(s: string, sub: string)
    ensures Contains(s, sub) <==> Within(s, sub)
  {
    if Contains(s, sub) {
      var i :| 0 <= i <= |s| && sub <= s[i..];
      assert s == s[..i] + sub + s[i + |sub|..];
    }
    if Within(s, sub) {
      var a: string, b: string :| s == a + sub + b;
      assert s[|a|..] == sub + b;
    }
  }

  /** A container ends the watch exactly if its pull fails and the image is not found or the pod has had its 15 minutes. */
  lemma CondemnsExactlyWhen(es: seq<Event>, c: Container)
    requires es != []
    ensures var first := FirstPull(Init(es), Last(es).s.uid);
            Condemns(es, c) <==>
            && !c.ready && c.reason == "ErrImagePull"
            && (Within(c.message, "code = NotFound") || (first.Some? && first.value + 900_000_000_000 < Last(es).now))
  {
    ContainsIsWithin(c.message, "code = NotFound");
  }

  /** A container of the status fails to pull its image, and the pod is neither deleted nor failed. */
  predicate ShowsFailedPull(s: Status) {
    && !s.deleted && (s.ready || s.phase != "Failed")
    && exists j :: 0 <= j < |s.All()| && !s.All()[j].ready && s.All()[j].reason == "ErrImagePull"
  }

  /** Event i is the first that shows a failed pull of the pod. */
  ghost predicate IsFirstPull(es: seq<Event>, uid: string, i: nat) {
    && i < |es| && es[i].s.uid == uid && ShowsFailedPull(es[i].s)
    && forall j :: 0 <= j < i ==> !(es[j].s.uid == uid && ShowsFailedPull(es[j].s))
  }

  lemma {:induction false} FirstPullIsFirst(es: seq<Event>, uid: string)
    ensures FirstPull(es, uid).Some? ==> exists i: nat :: IsFirstPull(es, uid, i) && FirstPull(es, uid).value == es[i].now
    ensures FirstPull(es, uid).None? ==> forall i :: 0 <= i < |es| ==> !(es[i].s.uid == uid && ShowsFailedPull(es[i].s))
  {
    if es != [] {
      var all, e := Init(es), Last(es);
      FirstPullIsFirst(all, uid);
      assert FailedPull(e) <==> ShowsFailedPull(e.s);
      if FirstPull(all, uid).Some? {
        var i: nat :| IsFirstPull(all, uid, i) && FirstPull(all, uid).value == all[i].now;
        assert IsFirstPull(es, uid, i);
      } else if e.s.uid == uid && FailedPull(e) {
        assert IsFirstPull(es, uid, |es| - 1);
      }
    }
  }

  /** What an error says of the pod and, where it is about one, of the first container that ends the watch. */
  lemma ErrorNamesTheCulprit(es: seq<Event>) returns (k: nat)
    requires es != [] && Run(Init(es)).error.None? && Run(es).error.Some?
    ensures forall j :: 0 <= j < k && j < |Last(es).s.All()| ==> !Condemns(es, Last(es).s.All()[j])
    ensures var s := Last(es).s;
            !s.deleted && match Run(es).error.value
            case PodFailed(pod) => !s.ready && s.phase == "Failed" && pod == s.name
            case NotFound(namespace, pod, container, image) =>
              && k < |s.All()| && namespace == s.namespace && pod == s.name
              && container == s.All()[k].name && image == s.All()[k].image
              && Condemns(es, s.All()[k]) && Within(s.All()[k].message, "code = NotFound")
            case PullTimedOut(namespace, pod, container, image) =>
              && k < |s.All()| && namespace == s.namespace && pod == s.name
              && container == s.All()[k].name && image == s.All()[k].image
              && Condemns(es, s.All()[k]) && !Within(s.All()[k].message, "code = NotFound")
  {
    GivesUpExactlyWhen(es);
    var s := Last(es).s;
    k := 0;
    if !Failed(s) {
      k :| && 0 <= k < |s.All()| && Condemns(es, s.All()[k]) && Run(es).error.value == FaultOf(s, s.All()[k])
           && forall j :: 0 <= j < k ==> !Condemns(es, s.All()[j]);
      ContainsIsWithin(s.All()[k].message, "code = NotFound");
    }
  }

  /** A deletion timestamp, once set, is never taken back, and readiness is computed from the containers. */
  predicate Plausible(es: seq<Event>) {
    && (forall i :: 0 <= i < |es| ==> Sound(es[i].s))
    && (forall i, j :: 0 <= i < j < |es| && es[i].s.uid == es[j].s.uid && es[i].s.deleted ==> es[j].s.deleted)
  }

  /** Nothing about the status is new to the watcher. */
  predicate Known(w: Watch, s: Status) {
    && !Failed(s)
    && (forall i :: 0 <= i < |s.All()| ==> !Missing(s.All()[i]))
    && (AnyPulling(s.All(), |s.All()|) ==> s.uid in w.starts)
  }

  lemma {:induction false} HandledIsKnown(es: seq<Event>, uid: string)
    requires Run(es).error.None? && Latest(es, uid).Some? && !Latest(es, uid).value.deleted
    ensures Known(Run(es), Latest(es, uid).value)
  {
    if Last(es).s.uid != uid {
      HandledIsKnown(Init(es), uid);
    }
  }

  lemma {:induction false} LatestIsEarlier(es: seq<Event>, uid: string) returns (i: nat)
    requires Latest(es, uid).Some?
    ensures i < |es| && es[i].s == Latest(es, uid).value && es[i].s.uid == uid
  {
    if Last(es).s.uid == uid {
      i := |es| - 1;
    } else {
      i := LatestIsEarlier(Init(es), uid);
    }
  }

  /** Handling a repeated status can only do one thing: find that the pull has become overdue. */
  lemma RepeatOnlyTimesOut(es: seq<Event>)
    requires es != [] && Plausible(es) && Repeats(es) && Run(Init(es)).error.None?
    ensures Run(es) == Run(Init(es)) || (Run(es).error.Some? && Run(es).error.value.PullTimedOut?)
  {
    var all, s := Init(es), Last(es).s;
    if !s.deleted {
      var i := LatestIsEarlier(all, s.uid);
      var before := Latest(all, s.uid).value;
      assert es[i].s == before && es[|es| - 1].s == s;
      assert before.All() == s.All() && before == s;
      HandledIsKnown(all, s.uid);
    }
  }

  /**
   Dropping repeated updates changes what the watcher reports in one case only. As long as watching everything finds
   no error, watching the forwarded updates leads to the same state. At the event where watching everything gives up,
   the watcher of the forwarded updates gives up with the same error if and only if that event is not a repeat; and
   an error that is missed in this way is always a pull that timed out.
   */
  lemma {:induction false} RepeatsHideOnlyTimeouts(es: seq<Event>)
    requires Plausible(es)
    ensures Run(es).error.None? ==> Run(Fresh(es)) == Run(es)
    ensures es != [] && Run(Init(es)).error.None? && Run(es).error.Some? ==>
              && (Run(Fresh(es)).error == Run(es).error <==> !Repeats(es))
              && (Repeats(es) ==> Run(es).error.value.PullTimedOut? && Run(Fresh(es)).error.None?)
  {
    if es != [] {
      RepeatsHideOnlyTimeouts(Init(es));
      if Run(Init(es)).error.None? {
        if Repeats(es) {
          RepeatOnlyTimesOut(es);
        } else {
          assert Init(Fresh(es)) == Fresh(Init(es)) && Last(Fresh(es)) == Last(es);
        }
      }
    }
  }

  /** Once the event that ends the watch is forwarded, the error stands, whatever is reported later. */
  lemma {:induction false} ReportedForGood(es: seq<Event>, n: nat)
    requires Plausible(es) && 0 < n <= |es|
    requires Run(es[..n - 1]).error.None? && Run(es[..n]).error.Some? && !Repeats(es[..n])
    ensures Run(Fresh(es)).error == Run(es[..n]).error == Run(es).error
  {
    if n == |es| {
      assert es[..n] == es && es[..n - 1] == Init(es);
      RepeatsHideOnlyTimeouts(es);
    } else {
      var all := Init(es);
      assert all[..n] == es[..n] && all[..n - 1] == es[..n - 1];
      ReportedForGood(all, n);
      assert !Repeats(es) ==> Init(Fresh(es)) == Fresh(all) && Last(Fresh(es)) == Last(es);
    }
  }

  // ---- Whole streams through the filter -----------------------------------

  /** The last event ends a watch that is still on: the pod fails, or a container condemns it. */
  predicate Ends(es: seq<Event>)
    requires es != []
  {
    var s := Last(es).s;
    !s.deleted && (Failed(s) || exists c :: c in s.All() && Condemns(es, c))
  }

  lemma {:induction false} PullIsFirstOrLater(es: seq<Event>, i: nat)
    requires i < |es| && FailedPull(es[i])
    ensures FirstPull(es, es[i].s.uid).Some?
    decreases |es|
  {
    if i < |es| - 1 {
      PullIsFirstOrLater(Init(es), i);
    }
  }

  /** The first failed pull of a pod is never a repeat, so the filter leaves all first pulls where they are. */
  lemma {:induction false} FilterKeepsFirstPulls(es: seq<Event>, uid: string)
    requires Plausible(es)
    ensures FirstPull(Fresh(es), uid) == FirstPull(es, uid)
    decreases |es|
  {
    if es != [] {
      FilterKeepsFirstPulls(Init(es), uid);
      if Repeats(es) {
        RepeatIsNoFirstPull(es);
      } else {
        assert Init(Fresh(es)) == Fresh(Init(es)) && Last(Fresh(es)) == Last(es);
      }
    }
  }

  lemma RepeatIsNoFirstPull(es: seq<Event>)
    requires es != [] && Plausible(es) && Repeats(es)
    ensures FailedPull(Last(es)) ==> FirstPull(Init(es), Last(es).s.uid).Some?
  {
    var s := Last(es).s;
    if !FailedPull(Last(es)) {
      return;
    }
    var i := LatestIsEarlier(Init(es), s.uid);
    assert es[i].s == Init(es)[i].s && es[|es| - 1].s == s;
    assert es[i].s.All() == s.All() && es[i].s == s;
    PullIsFirstOrLater(Init(es), i);
  }

  /**
   What the watcher behind the filter makes of a whole stream, told from the stream alone: it gives up if and only if
   some event that is not a repeat ends the watch. So a late pull is seen only when the pod's status changes.
   */
  lemma {:induction false} FilteredGivesUpExactlyWhen(es: seq<Event>)
    requires Plausible(es)
    ensures Run(Fresh(es)).error.Some? <==> SomeEnds(es)
    decreases |es|
  {
    if es != [] {
      FilteredGivesUpExactlyWhen(Init(es));
      SomeEndsNext(es);
      if !Repeats(es) {
        FilteredLast(es);
      }
    }
  }

  /** Some event that is not a repeat ends the watch. */
  ghost predicate SomeEnds(es: seq<Event>) {
    exists n :: 0 < n <= |es| && !Repeats(es[..n]) && Ends(es[..n])
  }

  lemma SomeEndsNext(es: seq<Event>)
    requires es != []
    ensures SomeEnds(es) <==> SomeEnds(Init(es)) || (!Repeats(es) && Ends(es))
  {
    var all := Init(es);
    assert es[..|es|] == es;
    assert forall n :: 0 < n <= |all| ==> es[..n] == all[..n];
  }

  lemma FilteredLast(es: seq<Event>)
    requires es != [] && Plausible(es) && !Repeats(es)
    ensures Run(Fresh(es)).error.Some? <==> Run(Fresh(Init(es))).error.Some? || Ends(es)
  {
    var kept := Fresh(es);
    assert Init(kept) == Fresh(Init(es)) && Last(kept) == Last(es);
    if Run(Init(kept)).error.None? {
      GivesUpExactlyWhen(kept);
      FilterKeepsFirstPulls(Init(es), Last(es).s.uid);
      assert forall c :: Condemns(kept, c) <==> Condemns(es, c);
    }
  }

  /** The first container from i on that condemns the pod of the last event. */
  function FirstCondemned(es: seq<Event>, i: nat): (k: nat)
    requires es != [] && i <= |Last(es).s.All()|
    ensures i <= k <= |Last(es).s.All()| && (k < |Last(es).s.All()| ==> Condemns(es, Last(es).s.All()[k]))
    ensures forall j :: i <= j < k ==> !Condemns(es, Last(es).s.All()[j])
    decreases |Last(es).s.All()| - i
  {
    if i == |Last(es).s.All()| || Condemns(es, Last(es).s.All()[i]) then i else FirstCondemned(es, i + 1)
  }

  lemma CondemnedIsThere(es: seq<Event>)
    requires es != [] && Ends(es) && !Failed(Last(es).s)
    ensures FirstCondemned(es, 0) < |Last(es).s.All()|
  {
    var cs := Last(es).s.All();
    var c :| c in cs && Condemns(es, c);
    var i :| 0 <= i < |cs| && cs[i] == c;
  }

  /** The error with which the last event ends the watch. */
  function Verdict(es: seq<Event>): Fault
    requires es != [] && Ends(es)
  {
    var s := Last(es).s;
    if Failed(s) then PodFailed(s.name)
    else
      CondemnedIsThere(es);
      FaultOf(s, s.All()[FirstCondemned(es, 0)])
  }

  /** The first error is the verdict on the event it comes from. */
  lemma ErrorIsVerdict(es: seq<Event>)
    requires es != [] && Run(Init(es)).error.None? && Ends(es)
    ensures Run(es).error == Some(Verdict(es))
  {
    GivesUpExactlyWhen(es);
    if !Failed(Last(es).s) {
      var s, error := Last(es).s, Run(es).error;
      CondemnedIsThere(es);
      var k :| && 0 <= k < |s.All()| && Condemns(es, s.All()[k]) && error.value == FaultOf(s, s.All()[k])
               && forall j :: 0 <= j < k ==> !Condemns(es, s.All()[j]);
      assert k == FirstCondemned(es, 0);
    }
  }

  lemma FilteredVerdict(es: seq<Event>)
    requires es != [] && Plausible(es) && !Repeats(es) && Ends(es) && Run(Fresh(Init(es))).error.None?
    ensures Run(Fresh(es)).error == Some(Verdict(es))
  {
    var kept := Fresh(es);
    assert Init(kept) == Fresh(Init(es)) && Last(kept) == Last(es);
    FilteredLast(es);
    FilterKeepsFirstPulls(Init(es), Last(es).s.uid);
    assert forall c :: Condemns(kept, c) <==> Condemns(es, c);
    ErrorIsVerdict(kept);
    if !Failed(Last(es).s) {
      CondemnedIsThere(es);
      CondemnedIsThere(kept);
      assert FirstCondemned(kept, 0) == FirstCondemned(es, 0);
    }
  }

  /** The watcher behind the filter reports the verdict on the first such event, whatever comes later. */
  lemma {:induction false} FilteredReportsFirst(es: seq<Event>, n: nat)
    requires Plausible(es) && 0 < n <= |es| && !Repeats(es[..n]) && Ends(es[..n]) && !SomeEnds(es[..n - 1])
    ensures Run(Fresh(es)).error == Some(Verdict(es[..n]))
    decreases |es|
  {
    if n == |es| {
      assert es[..n] == es && es[..n - 1] == Init(es);
      FilteredGivesUpExactlyWhen(Init(es));
      FilteredVerdict(es);
    } else {
      var all := Init(es);
      assert all[..n] == es[..n] && all[..n - 1] == es[..n - 1];
      FilteredReportsFirst(all, n);
      assert !Repeats(es) ==> Init(Fresh(es)) == Fresh(all) && Last(Fresh(es)) == Last(es);
    }
  }

  /** Every event reports the same failing pull, of an image that may exist. */
  predicate Stuck(es: seq<Event>) {
    && es != [] && FailedPull(es[0])
    && (forall j :: 0 <= j < |es[0].s.All()| ==> !Missing(es[0].s.All()[j]))
    && (forall i :: 0 <= i < |es| ==> es[i].s == es[0].s)
  }

  /** Of the reports of a stuck pull only the first is forwarded. */
  lemma {:induction false} StuckIsForwardedOnce(es: seq<Event>)
    requires Stuck(es)
    ensures Fresh(es) == [es[0]]
    decreases |es|
  {
    assert Init([es[0]]) == [] && Fresh([es[0]]) == [es[0]];
    if |es| == 1 {
      assert es == [es[0]];
    } else {
      StuckIsForwardedOnce(Init(es));
      assert Last(es).s == es[0].s && Last(Init(es)).s == es[0].s;
      assert Repeats(es);
    }
  }

  lemma FirstReportIsRemembered(e: Event)
    requires Stuck([e])
    ensures Run([e]) == Watch(map[e.s.uid := e.now], None)
  {
    assert Init([e]) == [] && Run([]) == Watch(map[], None);
    var cs := e.s.All();
    assert FirstFatal(map[], e.s.uid, cs, e.now, 0) == |cs|;
  }

  lemma LaterReportTimesOut(w: Watch, e: Event, first: int)
    requires Stuck([e]) && w.error.None? && w.starts == map[e.s.uid := first]
    ensures Update(w, e).starts == w.starts
    ensures Update(w, e).error.Some? <==> first + MAX_PULL_TIME < e.now
    ensures Update(w, e).error.Some? ==> Update(w, e).error.value.PullTimedOut?
  {
  }

  /** Watching all reports of a stuck pull times out exactly if one comes after the allowed time. */
  lemma {:induction false} StuckTimesOut(es: seq<Event>)
    requires Stuck(es)
    ensures Run(es).starts == map[es[0].s.uid := es[0].now]
    ensures Run(es).error.Some? <==> exists i :: 0 <= i < |es| && es[0].now + MAX_PULL_TIME < es[i].now
    ensures Run(es).error.Some? ==> Run(es).error.value.PullTimedOut?
    decreases |es|
  {
    FirstReportIsRemembered(es[0]);
    if |es| == 1 {
      assert es == [es[0]];
    } else {
      StuckTimesOut(Init(es));
      assert Last(es).s == es[0].s;
      if Run(Init(es)).error.None? {
        LaterReportTimesOut(Run(Init(es)), Last(es), es[0].now);
      }
    }
  }

  /**
   A pod that is stuck in one failing pull: a watcher that saw every report would time out at the first one after
   the allowed time, the watcher behind the filter never does, however long the unchanged status is reported.
   */
  lemma StuckPullIsNeverReported(es: seq<Event>)
    requires Stuck(es)
    ensures Fresh(es) == [es[0]] && Run(Fresh(es)).error.None?
    ensures Run(es).starts == map[es[0].s.uid := es[0].now]
    ensures Run(es).error.Some? <==> exists i :: 0 <= i < |es| && es[0].now + MAX_PULL_TIME < es[i].now
    ensures Run(es).error.Some? ==> Run(es).error.value.PullTimedOut?
  {
    StuckIsForwardedOnce(es);
    FirstReportIsRemembered(es[0]);
    StuckTimesOut(es);
  }
}
