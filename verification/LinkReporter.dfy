/**
 The link-state vocabulary of the bridge and the reporter that decides which
 state a bridge tells its peer (bridge/link.go).
 */
module LinkReporter {

  /** wire.LinkState: `Unknown` carries no information and receivers ignore it. */
  datatype LinkState = Unknown | Up | Down

  /** The two interface flags a bridge looks at. */
  datatype Observation = Observation(adminUp: bool, carrier: bool)

  /** An interface that is admin down. */
  const OFF := Observation(false, false)

  /** The admin state of a device or interface, said as a link state. */
  function AsLinkState(up: bool): LinkState {
    if up then Up else Down
  }

  /** What one observation says to the peer; nothing while the interface is admin down. */
  function Report(o: Observation): LinkState {
    if o.adminUp then AsLinkState(o.carrier) else Unknown
  }

  /** What is emitted for `o` when `reported` was the last state: a report is not repeated. */
  function Emit(reported: LinkState, o: Observation): LinkState {
    if Report(o) == reported then Unknown else Report(o)
  }

  class Reporter {
    var reported: LinkState

    constructor ()
      ensures reported == Unknown
    {
      reported := Unknown;
    }

    method Observe(o: Observation) returns (s: LinkState)
      modifies this
      ensures reported == Report(o)
      ensures s == Emit(old(reported), o)
    {
      if !o.adminUp {
        reported := Unknown;
        return Unknown;
      }
      s := Down;
      if o.carrier {
        s := Up;
      }
      if s == reported {
        return Unknown;
      }
      reported := s;
    }

    function Current(): (s: LinkState)
      reads this
    {
      reported
    }
  }

  // ---- Whole observation sequences ----------------------------------------

  /** The reporter's state after observing all of `obs`. */
  function Final(reported: LinkState, obs: seq<Observation>): LinkState {
    if obs == [] then reported else Report(obs[|obs| - 1])
  }

  /** The states sent to the peer over a whole sequence of observations. */
  function Emissions(reported: LinkState, obs: seq<Observation>): seq<LinkState>
    decreases |obs|
  {
    if obs == [] then []
    else
      var e := Emit(reported, obs[0]);
      (if e == Unknown then [] else [e]) + Emissions(Report(obs[0]), obs[1..])
  }

  /** The admin state a peer ends in after applying `sent` in order, starting from `admin`. */
  function ApplyAll(admin: bool, sent: seq<LinkState>): bool
    decreases |sent|
  {
    if sent == [] then admin else ApplyAll(sent[0] == Up, sent[1..])
  }

  /**
   Suppressing repeats and silence while admin down lose nothing the peer needs:
   whenever the reporter ends with a state to report, a peer that applied every
   emission agrees with that state -- whatever the observations were.
   */
  lemma {:induction false} EmissionsKeepPeerInStep(reported: LinkState, obs: seq<Observation>, admin: bool)
    requires reported != Unknown ==> AsLinkState(admin) == reported
    ensures forall s :: s in Emissions(reported, obs) ==> s != Unknown
    ensures Final(reported, obs) != Unknown
            ==> AsLinkState(ApplyAll(admin, Emissions(reported, obs))) == Final(reported, obs)
    decreases |obs|
  {
    if obs != [] {
      var e := Emit(reported, obs[0]);
      var rest := Emissions(Report(obs[0]), obs[1..]);
      if e == Unknown {
        assert Emissions(reported, obs) == rest;
        EmissionsKeepPeerInStep(Report(obs[0]), obs[1..], admin);
      } else {
        assert Emissions(reported, obs) == [e] + rest;
        EmissionsKeepPeerInStep(Report(obs[0]), obs[1..], e == Up);
      }
    }
  }

  ghost predicate Alternates(s: seq<LinkState>) {
    forall i, j :: 0 <= i < j < |s| && j == i + 1 ==> s[i] != s[j]
  }

  /**
   No chatter: while the interface stays admin up, what is sent alternates,
   starting with something other than the last state reported.
   */
  lemma {:induction false} EmissionsAlternateWhileUp(reported: LinkState, obs: seq<Observation>)
    requires forall o :: o in obs ==> o.adminUp
    ensures Alternates([reported] + Emissions(reported, obs))
    decreases |obs|
  {
    if obs != [] {
      EmissionsAlternateWhileUp(Report(obs[0]), obs[1..]);
      var tail := [Report(obs[0])] + Emissions(Report(obs[0]), obs[1..]);
      if Emit(reported, obs[0]) == Unknown {
        assert [reported] + Emissions(reported, obs) == tail;
      } else {
        assert [reported] + Emissions(reported, obs) == [reported] + tail;
      }
    }
  }
}
