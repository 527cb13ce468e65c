/**
 The server's cache of demuxes by interface name (bridge/bridge.go `getOrCreateDemux`, its teardown
 callback, and `Server.Close`). The server's mutex makes sections atomic, but contexts are
 cancelled without it, so `getOrCreateDemux` is taken apart at every look at a context.
 */
module ServerCache {
  import opened Wrappers
  import opened Sequences

  /** `tornDown`: the read loop ended and its callback ran. */
  datatype Demux = Demux(name: string, cancelled: bool, tornDown: bool)

  /** Who holds the mutex, and how far `getOrCreateDemux` got. */
  datatype Lock = Free | Looking(name: string) | Creating(name: string)

  /**
   Demuxes are known by their position in `demuxes`. `evicted` records those that a lookup removed from the
   cache because they were cancelled; `collected` are those that `Close` waits for.
   */
  datatype Server = Server(
    demuxes: seq<Demux>,
    cache: map<string, nat>,
    shutdown: bool,
    lock: Lock,
    evicted: set<nat>,
    collected: Option<set<nat>>
  ) {
    predicate Live(name: string) {
      name in cache && cache[name] < |demuxes| && !demuxes[cache[name]].cancelled
    }
  }

  datatype Step =
    | Enter(name: string)  // getOrCreateDemux takes the mutex and passes the shutdown check
    | Look                 // it looks the name up: a live demux is returned, a cancelled one is deleted
    | OpenFails            // the socket does not open
    | Create               // it opens, and the new demux is cached
    | Cancel(d: nat)       // the context of a demux is cancelled (read error, close)
    | OnClose(d: nat)      // the teardown callback of a demux
    | Shutdown             // Close cancels the server context and with it every demux context
    | Collect              // Close lists, under the mutex, the demuxes to close and wait for

  predicate Enabled(s: Server, step: Step) {
    match step
    case Enter(_) => s.lock.Free? && !s.shutdown
    case Look => s.lock.Looking?
    case OpenFails => s.lock.Creating?
    case Create => s.lock.Creating?
    case Cancel(d) => d < |s.demuxes|
    case OnClose(d) => s.lock.Free? && d < |s.demuxes| && s.demuxes[d].cancelled && !s.demuxes[d].tornDown
    case Shutdown => true
    case Collect => s.lock.Free? && s.shutdown && s.collected.None?
  }

  function CancelAll(ds: seq<Demux>): seq<Demux> {
    seq(|ds|, i requires 0 <= i < |ds| => ds[i].(cancelled := true))
  }

  function Do(s: Server, step: Step): Server
    requires Enabled(s, step)
  {
    match step
    case Enter(name) => s.(lock := Looking(name))
    case Look =>
      var name := s.lock.name;
      if s.Live(name) then s.(lock := Free)
      else if name in s.cache then
        s.(lock := Creating(name), cache := s.cache - {name}, evicted := s.evicted + {s.cache[name]})
      else s.(lock := Creating(name))
    case OpenFails => s.(lock := Free)
    case Create =>
      var name := s.lock.name;
      s.(lock := Free, demuxes := s.demuxes + [Demux(name, s.shutdown, false)],
         cache := s.cache[name := |s.demuxes|])
    case Cancel(d) => s.(demuxes := s.demuxes[d := s.demuxes[d].(cancelled := true)])
    case OnClose(d) =>
      var name := s.demuxes[d].name;
      s.(demuxes := s.demuxes[d := s.demuxes[d].(tornDown := true)],
         cache := if name in s.cache && s.cache[name] == d then s.cache - {name} else s.cache)
    case Shutdown => s.(shutdown := true, demuxes := CancelAll(s.demuxes))
    case Collect => s.(collected := Some(set name | name in s.cache :: s.cache[name]))
  }

  const NEW: Server := Server([], map[], false, Free, {}, None)

  ghost predicate Behaviour(run: seq<Server>, steps: seq<Step>) {
    && |run| == |steps| + 1
    && forall i :: 0 <= i < |steps| ==> Enabled(run[i], steps[i]) && run[i + 1] == Do(run[i], steps[i])
  }

  ghost predicate Execution(run: seq<Server>, steps: seq<Step>) {
    Behaviour(run, steps) && run[0] == NEW
  }

  // ---- The code of the sections -------------------------------------------

  class WireServer {
    var demuxes: seq<Demux>
    var cache: map<string, nat>
    var shutdown: bool
    ghost var evicted: set<nat>

    ghost function View(): Server
      reads this
    {
      Server(demuxes, cache, shutdown, Free, evicted, None)
    }

    constructor ()
      ensures View() == NEW
    {
      demuxes, cache, shutdown, evicted := [], map[], false, {};
    }

    /** `getOrCreateDemux` when nothing is cancelled meanwhile; `opens` says whether the socket opens. */
    method GetOrCreateDemux(name: string, opens: bool) returns (d: Option<nat>)
      requires forall n :: n in cache ==> cache[n] < |demuxes|
      modifies this
      ensures old(shutdown) ==> d == None && View() == old(View())
      ensures !old(shutdown) ==>
                var looked := Do(Do(old(View()), Enter(name)), Look);
                if looked.lock.Free? then View() == looked && d == Some(cache[name])
                else if !opens then View() == Do(looked, OpenFails) && d == None
                else View() == Do(looked, Create) && d == Some(old(|demuxes|))
      ensures !old(shutdown) && name in old(cache) && !old(demuxes[cache[name]].cancelled) ==>
                d == Some(old(cache[name])) && demuxes == old(demuxes)
      ensures d.Some? ==> d.value < |demuxes| && !demuxes[d.value].cancelled && name in cache && cache[name] == d.value
    {
      if shutdown {
        return None;
      }
      if name in cache {
        if !demuxes[cache[name]].cancelled {
          return Some(cache[name]);
        }
        evicted := evicted + {cache[name]};
        cache := cache - {name};
      }
      if !opens {
        return None;
      }
      d := Some(|demuxes|);
      demuxes := demuxes + [Demux(name, shutdown, false)];
      cache := cache[name := d.value];
    }

    /** The callback given to a demux. */
    method OnClose(d: nat)
      requires d < |demuxes| && demuxes[d].cancelled && !demuxes[d].tornDown
      modifies this
      ensures View() == Do(old(View()), Step.OnClose(d))
    {
      var name := demuxes[d].name;
      if name in cache && cache[name] == d {
        cache := cache - {name};
      }
      demuxes := demuxes[d := demuxes[d].(tornDown := true)];
    }
  }

  // ---- Safety -------------------------------------------------------------

  ghost predicate Invariant(s: Server) {
    && (forall n :: n in s.cache ==> s.cache[n] < |s.demuxes| && s.demuxes[s.cache[n]].name == n)
    && (forall d :: 0 <= d < |s.demuxes| && !s.demuxes[d].cancelled ==> Cached(s, d))
    && (s.shutdown ==> forall d :: 0 <= d < |s.demuxes| ==> s.demuxes[d].cancelled)
    && (s.lock.Creating? ==> s.lock.name !in s.cache)
    && (s.collected.Some? ==> s.shutdown && s.lock.Free?)
    && (forall d :: 0 <= d < |s.demuxes| ==> s.demuxes[d].tornDown || d in s.evicted || Cached(s, d))
    && (forall n :: n in s.cache ==> s.cache[n] !in s.evicted && !s.demuxes[s.cache[n]].tornDown)
    && (forall d :: d in s.evicted ==> d < |s.demuxes|)
  }

  /** The demux d is the one cached under its name. */
  predicate Cached(s: Server, d: nat)
    requires d < |s.demuxes|
  {
    s.demuxes[d].name in s.cache && s.cache[s.demuxes[d].name] == d
  }

  lemma LookKeepsInvariant(s: Server)
    requires Invariant(s) && s.lock.Looking?
    ensures Invariant(Do(s, Look))
  {
    assert forall n :: n in s.cache ==> Cached(s, s.cache[n]);
  }

  lemma CreateKeepsInvariant(s: Server)
    requires Invariant(s) && s.lock.Creating?
    ensures Invariant(Do(s, Create))
  {
    var s' := Do(s, Create);
    assert forall d :: 0 <= d < |s.demuxes| ==> s'.demuxes[d] == s.demuxes[d];
    assert forall d :: 0 <= d < |s.demuxes| && Cached(s, d) ==> Cached(s', d);
    assert Cached(s', |s.demuxes|);
  }

  lemma OnCloseKeepsInvariant(s: Server, d: nat)
    requires Invariant(s) && Enabled(s, OnClose(d))
    ensures Invariant(Do(s, OnClose(d)))
  {
    var s' := Do(s, OnClose(d));
    assert forall e :: 0 <= e < |s.demuxes| && e != d && Cached(s, e) ==> Cached(s', e);
  }

  lemma CancelKeepsInvariant(s: Server, step: Step)
    requires Invariant(s) && Enabled(s, step) && (step.Cancel? || step.Shutdown?)
    ensures Invariant(Do(s, step))
  {
    var s' := Do(s, step);
    assert forall d :: 0 <= d < |s.demuxes| ==>
        s'.demuxes[d].name == s.demuxes[d].name && s'.demuxes[d].tornDown == s.demuxes[d].tornDown
        && (s.demuxes[d].cancelled ==> s'.demuxes[d].cancelled);
    assert forall d :: 0 <= d < |s.demuxes| && Cached(s, d) ==> Cached(s', d);
  }

  lemma InvariantStep(s: Server, step: Step)
    requires Invariant(s) && Enabled(s, step)
    ensures Invariant(Do(s, step))
  {
    match step
    case Look => LookKeepsInvariant(s);
    case Create => CreateKeepsInvariant(s);
    case OnClose(d) => OnCloseKeepsInvariant(s, d);
    case Cancel(_) => CancelKeepsInvariant(s, step);
    case Shutdown => CancelKeepsInvariant(s, step);
    case _ =>
      assert Do(s, step).demuxes == s.demuxes && Do(s, step).cache == s.cache;
      assert forall d :: 0 <= d < |s.demuxes| && Cached(s, d) ==> Cached(Do(s, step), d);
  }

  lemma {:induction false} ExecutionInvariant(run: seq<Server>, steps: seq<Step>)
    requires Execution(run, steps)
    ensures forall i :: 0 <= i < |run| ==> Invariant(run[i])
    decreases |steps|
  {
    if |steps| > 0 {
      assert Execution(Init(run), Init(steps));
      ExecutionInvariant(Init(run), Init(steps));
      assert run[|steps| - 1] == Init(run)[|steps| - 1];
      InvariantStep(run[|steps| - 1], Last(steps));
      forall i | 0 <= i < |run| ensures Invariant(run[i]) {
        assert i < |steps| ==> run[i] == Init(run)[i];
      }
    }
  }

  /**
   In every reachable state an interface has at most one uncancelled demux, and it is the cached one --
   so no late teardown of a replaced demux ever evicts its replacement. Nothing is live after shutdown.
   */
  lemma OneLiveDemuxPerInterface(run: seq<Server>, steps: seq<Step>)
    requires Execution(run, steps)
    ensures var s := Last(run);
            && (forall d :: 0 <= d < |s.demuxes| && !s.demuxes[d].cancelled ==> Cached(s, d))
            && (forall d, e | 0 <= d < |s.demuxes| && 0 <= e < |s.demuxes|
                  :: !s.demuxes[d].cancelled && !s.demuxes[e].cancelled && s.demuxes[d].name == s.demuxes[e].name ==> d == e)
            && (s.shutdown ==> forall d :: 0 <= d < |s.demuxes| ==> s.demuxes[d].cancelled)
  {
    ExecutionInvariant(run, steps);
    assert Invariant(Last(run));
  }

  /** Once `Close` has listed the demuxes, no other is ever created. */
  lemma {:induction false} NoneCreatedAfterClose(run: seq<Server>, steps: seq<Step>, k: nat)
    requires Execution(run, steps) && k < |run| && run[k].collected.Some?
    ensures |Last(run).demuxes| == |run[k].demuxes| && Last(run).collected == run[k].collected
    decreases |run| - k
  {
    ExecutionInvariant(run, steps);
    if k < |steps| {
      assert Invariant(run[k]);
      NoneCreatedAfterClose(run, steps, k + 1);
    }
  }

  // ---- Between cancelling and collecting ----------------------------------

  /** The demuxes there are, and the one a call that holds the mutex may still create. */
  function Budget(s: Server): nat {
    |s.demuxes| + if s.lock.Free? then 0 else 1
  }

  lemma BudgetStep(s: Server, step: Step)
    requires s.shutdown && Enabled(s, step)
    ensures Do(s, step).shutdown && |s.demuxes| <= |Do(s, step).demuxes| && Budget(Do(s, step)) <= Budget(s)
  {
  }

  lemma {:induction false} BudgetOnlyShrinks(run: seq<Server>, steps: seq<Step>, n: nat)
    requires Behaviour(run, steps) && run[0].shutdown && n < |run|
    ensures run[n].shutdown && |run[0].demuxes| <= |run[n].demuxes| && Budget(run[n]) <= Budget(run[0])
  {
    if n > 0 {
      BudgetOnlyShrinks(run, steps, n - 1);
      BudgetStep(run[n - 1], steps[n - 1]);
    }
  }

  lemma {:induction false} StaysInvariant(run: seq<Server>, steps: seq<Step>, n: nat)
    requires Behaviour(run, steps) && Invariant(run[0]) && n < |run|
    ensures Invariant(run[n])
  {
    if n > 0 {
      StaysInvariant(run, steps, n - 1);
      InvariantStep(run[n - 1], steps[n - 1]);
    }
  }

  /** After shutdown at most the call that holds the mutex creates a demux, and whatever is created is cancelled. */
  lemma AtMostOneMore(run: seq<Server>, steps: seq<Step>)
    requires Behaviour(run, steps) && Invariant(run[0]) && run[0].shutdown
    ensures |run[0].demuxes| <= |Last(run).demuxes| && Budget(Last(run)) <= Budget(run[0])
    ensures forall d :: |run[0].demuxes| <= d < |Last(run).demuxes| ==> Last(run).demuxes[d].cancelled
  {
    BudgetOnlyShrinks(run, steps, |steps|);
    StaysInvariant(run, steps, |steps|);
    AllCancelled(Last(run));
  }

  lemma AllCancelled(s: Server)
    requires Invariant(s) && s.shutdown
    ensures forall d :: 0 <= d < |s.demuxes| ==> s.demuxes[d].cancelled
  {
  }

  /** The server can go on from s so that there are more demuxes. */
  ghost predicate CanCreate(s: Server) {
    exists run, steps :: Behaviour(run, steps) && run[0] == s && |Last(run).demuxes| > |s.demuxes|
  }

  /** In every run, after shutdown, another demux can be created if and only if a call holds the mutex. */
  lemma CreatesAfterShutdownExactlyWhen(run: seq<Server>, steps: seq<Step>)
    requires Execution(run, steps) && Last(run).shutdown
    ensures CanCreate(Last(run)) <==> !Last(run).lock.Free?
  {
    var s := Last(run);
    ExecutionInvariant(run, steps);
    if s.lock.Free? {
      forall run', steps' | Behaviour(run', steps') && run'[0] == s ensures |Last(run').demuxes| <= |s.demuxes| {
        AtMostOneMore(run', steps');
      }
    } else if s.lock.Creating? {
      assert Behaviour([s, Do(s, Create)], [Create]);
    } else {
      assert Invariant(s) && !s.Live(s.lock.name);
      var t := Do(s, Look);
      assert t.lock.Creating?;
      assert Behaviour([s, t, Do(t, Create)], [Look, Create]);
    }
  }

  /** A call that passed the shutdown check before Close creates its demux after it. */
  lemma CreatedAfterShutdown(name: string) returns (run: seq<Server>, steps: seq<Step>)
    ensures Execution(run, steps) && steps == [Enter(name), Look, Shutdown, Create]
    ensures run[2].demuxes == [] && run[3].shutdown && Last(run).demuxes == [Demux(name, true, false)]
  {
    steps := [Enter(name), Look, Shutdown, Create];
    var s1, s2 := NEW.(lock := Looking(name)), NEW.(lock := Creating(name));
    var s3 := s2.(shutdown := true);
    assert Do(s2, Shutdown) == s3;
    run := [NEW, s1, s2, s3, Do(s3, Create)];
  }

  /** Every demux whose read loop may still run is among those `Close` waits for. */
  ghost predicate AwaitsAll(s: Server) {
    s.collected.Some? && forall d :: 0 <= d < |s.demuxes| && !s.demuxes[d].tornDown ==> d in s.collected.value
  }

  /**
   `Close` waits for every read loop exactly when no demux that a lookup evicted is still winding down;
   an evicted one is waited for by nobody.
   */
  lemma CloseAwaitsAllButEvicted(run: seq<Server>, steps: seq<Step>)
    requires Execution(run, steps) && steps != [] && Last(steps) == Collect
    ensures var s := Last(run);
            AwaitsAll(s) <==> forall d :: d in s.evicted && d < |s.demuxes| ==> s.demuxes[d].tornDown
  {
    ExecutionInvariant(run, steps);
    var before, s := run[|steps| - 1], Last(run);
    assert Invariant(before) && Invariant(s) && s == Do(before, Collect);
    forall d | 0 <= d < |s.demuxes| && Cached(s, d) ensures d in s.collected.value {
      assert s.demuxes[d].name in s.cache;
    }
  }

  lemma EvictedIsNotAwaited(name: string) returns (run: seq<Server>, steps: seq<Step>)
    ensures Execution(run, steps) && steps != [] && Last(steps) == Collect && !AwaitsAll(Last(run))
  {
    steps := [Enter(name), Look, Create, Cancel(0), Enter(name), Look, OpenFails, Shutdown, Collect];
    var live, dead := Demux(name, false, false), Demux(name, true, false);
    var s3 := Server([live], map[name := 0], false, Free, {}, None);
    var s4 := s3.(demuxes := [dead]);
    var s7 := Server([dead], map[], false, Free, {0}, None);
    var s8 := s7.(shutdown := true);
    assert Do(s3, Cancel(0)) == s4;
    assert s4.cache - {name} == map[];
    assert Do(s4.(lock := Looking(name)), Look) == s7.(lock := Creating(name));
    assert Do(s7, Shutdown) == s8;
    var s9 := Do(s8, Collect);
    assert s9.collected.value == {};
    run := [NEW, NEW.(lock := Looking(name)), NEW.(lock := Creating(name)), s3, s4, s4.(lock := Looking(name)),
            s7.(lock := Creating(name)), s7, s8, s9];
    assert !Last(run).demuxes[0].tornDown;
  }
}
