/**
 Statuses of pods: how one is computed from what Kubernetes reports, when two count as the same update, and the
 goroutine of WatchPodStatus that forwards updates and drops repeated ones (pods/pods.go).
 */
module PodStatus {

  import opened Wrappers
  import opened Sequences
  import opened NameOrder

  datatype Container = Container(name: string, image: string, ready: bool, reason: string, message: string)

  /** `deleted` says that the raw pod carries a deletion timestamp. */
  datatype Status = Status(uid: string, name: string, namespace: string, phase: string, ready: bool, deleted: bool,
                           containers: seq<Container>, initContainers: seq<Container>)
  {
    /** The containers in the order in which the watcher looks at them. */
    function All(): seq<Container> {
      containers + initContainers
    }
  }

  /** What Kubernetes reports of one container; `waiting` holds the reason and the message. */
  datatype RawContainer = RawContainer(name: string, image: string, ready: bool, running: bool,
                                       waiting: Option<(string, string)>)

  datatype RawPod = RawPod(uid: string, name: string, namespace: string, phase: string, deleted: bool,
                           containers: seq<RawContainer>, initContainers: seq<RawContainer>)

  function ToContainer(c: RawContainer): Container {
    Container(c.name, c.image, c.ready || c.running,
              if c.waiting.Some? then c.waiting.value.0 else "", if c.waiting.Some? then c.waiting.value.1 else "")
  }

  predicate AllReady(cs: seq<Container>) {
    forall i :: 0 <= i < |cs| ==> cs[i].ready
  }

  /** A pod is ready exactly when it has a container and all its containers are. */
  predicate Sound(s: Status) {
    s.ready <==> |s.All()| > 0 && AllReady(s.All())
  }

  function Converted(raw: seq<RawContainer>): seq<Container> {
    seq(|raw|, i requires 0 <= i < |raw| => ToContainer(raw[i]))
  }

  // ---- Sorting containers by name -----------------------------------------

  predicate SortedByName(cs: seq<Container>) {
    forall i, j :: 0 <= i < j < |cs| ==> !Less(cs[j].name, cs[i].name)
  }

  /** `out` holds the containers of `cs`, sorted. */
  predicate Sorts(cs: seq<Container>, out: seq<Container>) {
    SortedByName(out) && multiset(out) == multiset(cs)
  }

  /** The container in its place among sorted ones. */
  function Insert(c: Container, cs: seq<Container>): (out: seq<Container>)
    requires SortedByName(cs)
    ensures Sorts([c] + cs, out)
  {
    if cs == [] then [c]
    else if Less(cs[0].name, c.name) then
      InsertLater(c, cs, Insert(c, cs[1..]));
      [cs[0]] + Insert(c, cs[1..])
    else
      InsertFirst(c, cs);
      [c] + cs
  }

  lemma InsertFirst(c: Container, cs: seq<Container>)
    requires cs != [] && SortedByName(cs) && !Less(cs[0].name, c.name)
    ensures SortedByName([c] + cs)
  {
    forall j | 0 <= j < |cs| ensures !Less(cs[j].name, c.name) {
      if j > 0 {
        LessIsTransitive(c.name, cs[0].name, cs[j].name);
      }
    }
  }

  lemma InsertLater(c: Container, cs: seq<Container>, rest: seq<Container>)
    requires cs != [] && SortedByName(cs) && Less(cs[0].name, c.name) && Sorts([c] + cs[1..], rest)
    ensures Sorts([c] + cs, [cs[0]] + rest)
  {
    LessIsStrict(cs[0].name, c.name);
    forall j | 0 <= j < |rest| ensures !Less(rest[j].name, cs[0].name) {
      assert rest[j] in multiset([c] + cs[1..]);
    }
    assert [cs[0]] + cs[1..] == cs;
  }

  method SortByName(cs: seq<Container>) returns (out: seq<Container>)
    ensures Sorts(cs, out)
  {
    out := [];
    for i := 0 to |cs|
      invariant Sorts(cs[..i], out)
    {
      assert cs[..i + 1] == cs[..i] + [cs[i]];
      out := Insert(cs[i], out);
    }
    assert cs[..|cs|] == cs;
  }

  predicate DistinctNames(cs: seq<Container>) {
    forall i, j :: 0 <= i < j < |cs| ==> cs[i].name != cs[j].name
  }

  /** With distinct names there is only one way to sort. */
  lemma {:induction false} SortedIsUnique(a: seq<Container>, b: seq<Container>)
    requires SortedByName(a) && SortedByName(b) && multiset(a) == multiset(b) && DistinctNames(a)
    ensures a == b
    decreases |a|
  {
    assert |a| == |multiset(a)| == |b|;
    if a != [] {
      SameFirst(a, b);
      assert a == [a[0]] + a[1..] && b == [b[0]] + b[1..];
      assert multiset(a[1..]) == multiset(a) - multiset{a[0]};
      assert multiset(b[1..]) == multiset(b) - multiset{b[0]};
      SortedIsUnique(a[1..], b[1..]);
    }
  }

  lemma SameFirst(a: seq<Container>, b: seq<Container>)
    requires SortedByName(a) && SortedByName(b) && multiset(a) == multiset(b) && DistinctNames(a)
    requires a != [] && b != []
    ensures a[0] == b[0]
  {
    assert a[0] in multiset(b) && b[0] in multiset(a);
    LessIsTotal(a[0].name, b[0].name);
  }

  lemma DistinctIsKept(a: seq<Container>, b: seq<Container>)
    requires multiset(a) == multiset(b) && DistinctNames(a)
    ensures DistinctNames(b)
  {
    forall i, j | 0 <= i < j < |b| ensures b[i].name != b[j].name {
      Twice(b, i, j);
      AtMostOnce(a, b[i]);
      assert b[i] in multiset(a) && b[j] in multiset(a);
    }
  }

  lemma Twice(b: seq<Container>, i: nat, j: nat)
    requires i < j < |b|
    ensures b[i] == b[j] ==> multiset(b)[b[i]] >= 2
  {
    assert b == b[..i] + [b[i]] + b[i + 1..j] + [b[j]] + b[j + 1..];
  }

  lemma {:induction false} AtMostOnce(a: seq<Container>, c: Container)
    requires DistinctNames(a)
    ensures multiset(a)[c] <= 1
    decreases |a|
  {
    if a != [] {
      AtMostOnce(a[1..], c);
      assert a == [a[0]] + a[1..];
    }
  }

  lemma SortingKeepsReadiness(cs: seq<Container>, out: seq<Container>)
    requires Sorts(cs, out)
    ensures |out| == |cs| && (AllReady(out) <==> AllReady(cs))
  {
    assert |out| == |multiset(out)| == |cs|;
    forall c ensures c in out <==> c in cs {
      assert c in multiset(out) <==> c in multiset(cs);
    }
    assert AllReady(out) <==> forall c :: c in out ==> c.ready;
    assert AllReady(cs) <==> forall c :: c in cs ==> c.ready;
  }

  // ---- From a pod to its status -------------------------------------------

  ghost predicate StatusOf(pod: RawPod, s: Status) {
    && s.uid == pod.uid && s.name == pod.name && s.namespace == pod.namespace
    && s.phase == pod.phase && s.deleted == pod.deleted
    && Sorts(Converted(pod.containers), s.containers)
    && Sorts(Converted(pod.initContainers), s.initContainers)
    && Sound(s)
  }

  lemma AllReadyNext(cs: seq<Container>, c: Container)
    ensures AllReady(cs + [c]) <==> AllReady(cs) && c.ready
  {
    assert forall i :: 0 <= i < |cs| ==> (cs + [c])[i] == cs[i];
    assert (cs + [c])[|cs|] == c;
  }

  method ToContainers(raw: seq<RawContainer>, ready: bool) returns (cs: seq<Container>, all: bool)
    ensures Sorts(Converted(raw), cs)
    ensures all <==> ready && AllReady(cs)
  {
    cs, all := [], ready;
    for n := 0 to |raw|
      invariant cs == Converted(raw[..n])
      invariant all <==> ready && AllReady(cs)
    {
      AllReadyNext(cs, ToContainer(raw[n]));
      all := all && ToContainer(raw[n]).ready;
      cs := cs + [ToContainer(raw[n])];
    }
    assert raw[..|raw|] == raw;
    var sorted := SortByName(cs);
    SortingKeepsReadiness(cs, sorted);
    cs := sorted;
  }

  method ToStatus(pod: RawPod) returns (s: Status)
    ensures StatusOf(pod, s)
  {
    var ready := |pod.containers| + |pod.initContainers| > 0;
    var containers, allReady := ToContainers(pod.containers, ready);
    var initContainers, podReady := ToContainers(pod.initContainers, allReady);
    s := Status(pod.uid, pod.name, pod.namespace, pod.phase, podReady, pod.deleted, containers, initContainers);
    SortingKeepsReadiness(Converted(pod.containers), containers);
    SortingKeepsReadiness(Converted(pod.initContainers), initContainers);
    assert forall i :: 0 <= i < |containers| ==> s.All()[i] == containers[i];
    assert forall i :: 0 <= i < |initContainers| ==> s.All()[|containers| + i] == initContainers[i];
  }

  /** The listed container says what Kubernetes reports of the raw one; a running container counts as ready. */
  predicate Shows(c: Container, raw: RawContainer) {
    && c.name == raw.name && c.image == raw.image
    && (c.ready <==> raw.ready || raw.running)
    && (raw.waiting.Some? ==> c.reason == raw.waiting.value.0 && c.message == raw.waiting.value.1)
    && (raw.waiting.None? ==> c.reason == "" && c.message == "")
  }

  /** The list has as many containers as are reported, each shows a reported one, and each reported one is shown. */
  ghost predicate ShowsAll(cs: seq<Container>, raw: seq<RawContainer>) {
    && |cs| == |raw|
    && (forall j :: 0 <= j < |cs| ==> exists i :: 0 <= i < |raw| && Shows(cs[j], raw[i]))
    && (forall i :: 0 <= i < |raw| ==> exists j :: 0 <= j < |cs| && Shows(cs[j], raw[i]))
  }

  lemma SortedHas(cs: seq<Container>, out: seq<Container>, i: nat) returns (j: nat)
    requires Sorts(cs, out) && i < |cs|
    ensures j < |out| && out[j] == cs[i]
  {
    assert cs[i] in multiset(out);
    j :| 0 <= j < |out| && out[j] == cs[i];
  }

  lemma SortedHasNoOther(cs: seq<Container>, out: seq<Container>, j: nat) returns (i: nat)
    requires Sorts(cs, out) && j < |out|
    ensures i < |cs| && cs[i] == out[j]
  {
    assert out[j] in multiset(cs);
    i :| 0 <= i < |cs| && cs[i] == out[j];
  }

  lemma ConvertedShowsAll(cs: seq<Container>, raw: seq<RawContainer>)
    requires Sorts(Converted(raw), cs)
    ensures ShowsAll(cs, raw)
  {
    SortingKeepsReadiness(Converted(raw), cs);
    forall j | 0 <= j < |cs| ensures exists i :: 0 <= i < |raw| && Shows(cs[j], raw[i]) {
      var i := SortedHasNoOther(Converted(raw), cs, j);
      assert Shows(cs[j], raw[i]);
    }
    forall i | 0 <= i < |raw| ensures exists j :: 0 <= j < |cs| && Shows(cs[j], raw[i]) {
      var j := SortedHas(Converted(raw), cs, i);
      assert Shows(cs[j], raw[i]);
    }
  }

  /** A status lists the containers and init containers of its pod as they are reported, sorted by name. */
  lemma StatusShowsContainers(pod: RawPod, s: Status)
    requires StatusOf(pod, s)
    ensures ShowsAll(s.containers, pod.containers) && SortedByName(s.containers)
    ensures ShowsAll(s.initContainers, pod.initContainers) && SortedByName(s.initContainers)
  {
    ConvertedShowsAll(s.containers, pod.containers);
    ConvertedShowsAll(s.initContainers, pod.initContainers);
  }

  /** The order in which Kubernetes lists the containers of a pod leaves no trace in its status. */
  lemma OrderOfContainersIsForgotten(p: RawPod, q: RawPod, s: Status, t: Status)
    requires StatusOf(p, s) && StatusOf(q, t)
    requires q == p.(containers := q.containers, initContainers := q.initContainers)
    requires multiset(Converted(p.containers)) == multiset(Converted(q.containers))
    requires multiset(Converted(p.initContainers)) == multiset(Converted(q.initContainers))
    requires DistinctNames(Converted(p.containers)) && DistinctNames(Converted(p.initContainers))
    ensures s == t
  {
    DistinctIsKept(Converted(p.containers), s.containers);
    DistinctIsKept(Converted(p.initContainers), s.initContainers);
    SortedIsUnique(s.containers, t.containers);
    SortedIsUnique(s.initContainers, t.initContainers);
  }

  /** Two statuses are the same update: they differ at most in readiness and in the deletion timestamp. */
  predicate Same(p: Status, q: Status) {
    q == p.(ready := q.ready, deleted := q.deleted)
  }

  method EqualContainers(a: seq<Container>, b: seq<Container>) returns (equal: bool)
    requires |a| == |b|
    ensures equal <==> a == b
  {
    for i := 0 to |a|
      invariant a[..i] == b[..i]
    {
      if a[i] != b[i] {
        return false;
      }
    }
    return true;
  }

  method Equal(p: Status, q: Status) returns (equal: bool)
    ensures equal <==> Same(p, q)
  {
    if p.uid != q.uid || p.name != q.name || p.namespace != q.namespace || p.phase != q.phase
       || |p.containers| != |q.containers| || |p.initContainers| != |q.initContainers| {
      return false;
    }
    equal := EqualContainers(p.containers, q.containers);
    if equal {
      equal := EqualContainers(p.initContainers, q.initContainers);
    }
  }

  /** A status together with the instant at which it is handled. */
  datatype Event = Event(s: Status, now: int)

  /** The last status of the pod among the events. */
  function Latest(es: seq<Event>, uid: string): Option<Status> {
    if es == [] then None
    else if Last(es).s.uid == uid then Some(Last(es).s)
    else Latest(Init(es), uid)
  }

  /** The last event repeats the status that its pod had before. */
  predicate Repeats(es: seq<Event>)
    requires es != []
  {
    var before := Latest(Init(es), Last(es).s.uid);
    before.Some? && Same(before.value, Last(es).s)
  }

  /** The events without the repeated ones. */
  function Fresh(es: seq<Event>): seq<Event> {
    if es == [] then []
    else if Repeats(es) then Fresh(Init(es))
    else Fresh(Init(es)) + [Last(es)]
  }

  /** The map of seen statuses knows, up to Same, the last status of every pod. */
  ghost predicate Tracks(seen: map<string, Status>, es: seq<Event>) {
    && (forall uid :: uid in seen <==> Latest(es, uid).Some?)
    && (forall uid :: uid in seen ==> Same(seen[uid], Latest(es, uid).value))
  }

  lemma TracksNext(seen: map<string, Status>, es: seq<Event>, e: Event)
    requires Tracks(seen, es)
    ensures var repeated := e.s.uid in seen && Same(e.s, seen[e.s.uid]);
            && Fresh(es + [e]) == Fresh(es) + (if repeated then [] else [e])
            && Tracks(if repeated then seen else seen[e.s.uid := e.s], es + [e])
  {
    assert Init(es + [e]) == es && Last(es + [e]) == e;
  }

  /** The goroutine that drops repeated updates: it keeps one status a pod and still drops exactly the repeats. */
  method DropRepeats(es: seq<Event>) returns (out: seq<Event>)
    ensures out == Fresh(es)
  {
    var seen: map<string, Status> := map[];
    out := [];
    for i := 0 to |es|
      invariant out == Fresh(es[..i]) && Tracks(seen, es[..i])
    {
      var s := es[i].s;
      assert es[..i + 1] == es[..i] + [es[i]];
      TracksNext(seen, es[..i], es[i]);
      if s.uid in seen {
        var equal := Equal(s, seen[s.uid]);
        if equal {
          continue;
        }
      }
      seen := seen[s.uid := s];
      out := out + [es[i]];
    }
    assert es[..|es|] == es;
  }

  /** The events of one pod. */
  function Of(es: seq<Event>, uid: string): seq<Event> {
    if es == [] then []
    else Of(Init(es), uid) + (if Last(es).s.uid == uid then [Last(es)] else [])
  }

  predicate NoTwoSame(es: seq<Event>) {
    forall i :: 0 < i < |es| ==> !Same(es[i - 1].s, es[i].s)
  }

  lemma {:induction false} LatestIsLastOf(es: seq<Event>, uid: string)
    ensures Latest(es, uid).Some? <==> Of(es, uid) != []
    ensures Of(es, uid) != [] ==> Latest(es, uid) == Some(Last(Of(es, uid)).s)
  {
    if es != [] {
      LatestIsLastOf(Init(es), uid);
    }
  }

  /** What was last forwarded of a pod is, up to Same, its current status: dropping updates hides no change. */
  lemma {:induction false} ForwardedIsCurrent(es: seq<Event>, uid: string)
    ensures Latest(es, uid).Some? <==> Latest(Fresh(es), uid).Some?
    ensures Latest(es, uid).Some? ==> Same(Latest(Fresh(es), uid).value, Latest(es, uid).value)
  {
    if es != [] {
      ForwardedIsCurrent(Init(es), uid);
      assert !Repeats(es) ==> Init(Fresh(es)) == Fresh(Init(es)) && Last(Fresh(es)) == Last(es);
    }
  }

  /**
   The forwarded updates are a subsequence of the reported ones, and no pod has two consecutive forwarded
   updates that are the same, whatever updates of other pods lie between them.
   */
  lemma {:induction false} ForwardedNeverRepeat(es: seq<Event>, uid: string)
    ensures Subsequence(Fresh(es), es)
    ensures NoTwoSame(Of(Fresh(es), uid))
  {
    if es != [] {
      var all, e := Init(es), Last(es);
      ForwardedNeverRepeat(all, uid);
      SubsequenceExtend(Fresh(all), all, e);
      assert all + [e] == es;
      if !Repeats(es) {
        assert Init(Fresh(es)) == Fresh(all) && Last(Fresh(es)) == e;
        ForwardedIsCurrent(all, e.s.uid);
        LatestIsLastOf(Fresh(all), uid);
      }
    }
  }
}
