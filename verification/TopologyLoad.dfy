/**
 The link pass of `Manager.load` (topo/topo.go): every link of the topology gives the interfaces at its
 two ends each other as peer and the link's number as UID.
 */
module TopologyLoad {
  import opened Wrappers
  import opened Sequences

  datatype Interface = Interface(intName: string, peerName: string, peerIntName: string, uid: int, mtu: int)

  /** The interfaces of each node, by node name and interface key. */
  type Nodes = map<string, map<string, Interface>>

  datatype Port = Port(node: string, intf: string)

  datatype Link = Link(a: Port, z: Port) {
    function Ports(): set<Port> {
      {a, z}
    }

    /** The far end seen from p. */
    function Mate(p: Port): Port {
      if p == a then z else a
    }
  }

  datatype LoadError = MissingNode(name: string) | AlreadyConnected(p: Port) | LoopNotSupported(l: Link)

  function Lookup(nodes: Nodes, p: Port): Option<Interface> {
    if p.node in nodes && p.intf in nodes[p.node] then Some(nodes[p.node][p.intf]) else None
  }

  /** The interface at p, or the one that is added when there is none. */
  function Base(nodes: Nodes, p: Port): Interface {
    var found := Lookup(nodes, p);
    if found.Some? then found.value else Interface(p.intf, "", "", 0, 0)
  }

  function Put(nodes: Nodes, p: Port, i: Interface): Nodes
    requires p.node in nodes
  {
    nodes[p.node := nodes[p.node][p.intf := i]]
  }

  function Joined(i: Interface, peer: Port, uid: int): Interface {
    i.(peerName := peer.node, peerIntName := peer.intf, uid := uid)
  }

  // ---- The pass as the code runs it ---------------------------------------

  /** One round of the loop over the links. */
  function Connect(nodes: Nodes, l: Link, uid: int): (Nodes, Option<LoadError>) {
    if l.a.node !in nodes then (nodes, Some(MissingNode(l.a.node))) else
    var nodes1 := Put(nodes, l.a, Base(nodes, l.a));
    if l.z.node !in nodes1 then (nodes1, Some(MissingNode(l.z.node))) else
    var nodes2 := Put(nodes1, l.z, Base(nodes1, l.z));
    if Base(nodes2, l.a).peerName != "" then (nodes2, Some(AlreadyConnected(l.a)))
    else if Base(nodes2, l.z).peerName != "" then (nodes2, Some(AlreadyConnected(l.z))) else
    var nodes3 := Put(nodes2, l.a, Joined(Base(nodes2, l.a), l.z, uid));
    (Put(nodes3, l.z, Joined(Base(nodes3, l.z), l.a, uid)), None)
  }

  /** All rounds, stopping at the first error. */
  function ConnectAll(nodes: Nodes, links: seq<Link>): (Nodes, Option<LoadError>) {
    if links == [] then (nodes, None)
    else
      var before := ConnectAll(nodes, Init(links));
      if before.1.Some? then before else Connect(before.0, Last(links), |links| - 1)
  }

  lemma {:induction false} ErrorStops(nodes: Nodes, links: seq<Link>, n: nat)
    requires n <= |links| && ConnectAll(nodes, links[..n]).1.Some?
    ensures ConnectAll(nodes, links) == ConnectAll(nodes, links[..n])
    decreases |links|
  {
    if n < |links| {
      assert Init(links)[..n] == links[..n];
      ErrorStops(nodes, Init(links), n);
    } else {
      assert links[..n] == links;
    }
  }

  class Manager {
    var nodes: Nodes

    constructor (nodes: Nodes)
      ensures this.nodes == nodes
    {
      this.nodes := nodes;
    }

    /** Looks the interface up, adding it when it is missing. */
    method Ensure(p: Port)
      requires p.node in nodes
      modifies this
      ensures nodes == Put(old(nodes), p, Base(old(nodes), p))
    {
      if p.intf !in nodes[p.node] {
        nodes := Put(nodes, p, Interface(p.intf, "", "", 0, 0));
      } else {
        assert nodes[p.node] == nodes[p.node][p.intf := nodes[p.node][p.intf]];
        assert nodes == Put(nodes, p, nodes[p.node][p.intf]);
      }
    }

    method ConnectLinks(links: seq<Link>) returns (err: Option<LoadError>)
      modifies this
      ensures (nodes, err) == ConnectAll(old(nodes), links)
    {
      var uid := 0;
      assert links[..0] == [];
      while uid < |links|
        invariant 0 <= uid <= |links|
        invariant (nodes, None) == ConnectAll(old(nodes), links[..uid])
      {
        var l := links[uid];
        ghost var next := ConnectAll(old(nodes), links[..uid + 1]);
        assert next == Connect(nodes, l, uid) by {
          assert Init(links[..uid + 1]) == links[..uid];
        }
        err := ConnectLink(l, uid);
        assert (nodes, err) == next;
        if err.Some? {
          ErrorStops(old(nodes), links, uid + 1);
          return;
        }
        uid := uid + 1;
      }
      assert links[..uid] == links;
      err := None;
    }

    method ConnectLink(l: Link, uid: int) returns (err: Option<LoadError>)
      modifies this
      ensures (nodes, err) == Connect(old(nodes), l, uid)
    {
      if l.a.node !in nodes {
        return Some(MissingNode(l.a.node));
      }
      Ensure(l.a);
      if l.z.node !in nodes {
        return Some(MissingNode(l.z.node));
      }
      Ensure(l.z);
      if nodes[l.a.node][l.a.intf].peerName != "" {
        return Some(AlreadyConnected(l.a));
      }
      if nodes[l.z.node][l.z.intf].peerName != "" {
        return Some(AlreadyConnected(l.z));
      }
      nodes := Put(nodes, l.a, Joined(nodes[l.a.node][l.a.intf], l.z, uid));
      nodes := Put(nodes, l.z, Joined(nodes[l.z.node][l.z.intf], l.a, uid));
      err := None;
    }

    /** The last loop of `load`: a link between two ports of one node needs a node that supports it. */
    method CheckLoops(links: seq<Link>, backToBack: set<string>) returns (err: Option<LoadError>)
      ensures err.None? <==>
                forall i :: 0 <= i < |links| && links[i].a.node == links[i].z.node ==> links[i].a.node in backToBack
      ensures err.Some? ==> err.value.LoopNotSupported? && err.value.l in links && !LoopSupported(err.value.l, backToBack)
    {
      for i := 0 to |links|
        invariant forall j :: 0 <= j < i ==> LoopSupported(links[j], backToBack)
      {
        var l := links[i];
        var loop := l.a.node in backToBack && l.z.node in backToBack;
        if !loop && l.a.node == l.z.node {
          return Some(LoopNotSupported(l));
        }
      }
      err := None;
    }
  }

  predicate LoopSupported(l: Link, backToBack: set<string>) {
    l.a.node == l.z.node ==> l.a.node in backToBack
  }

  // ---- What the pass means ------------------------------------------------

  /** All end nodes exist, no used interface has a peer already, and no interface is used by two links. */
  ghost predicate Wirable(nodes: Nodes, links: seq<Link>) {
    && (forall i :: 0 <= i < |links| ==> links[i].a.node in nodes && links[i].z.node in nodes)
    && (forall i :: 0 <= i < |links| ==> Unconnected(nodes, links[i].a) && Unconnected(nodes, links[i].z))
    && (forall i, j :: 0 <= i < j < |links| ==> links[i].Ports() !! links[j].Ports())
  }

  predicate Unconnected(nodes: Nodes, p: Port) {
    Base(nodes, p).peerName == ""
  }

  /** The number of the last link with p at an end. */
  function Owner(links: seq<Link>, p: Port): (o: Option<nat>)
    ensures o.Some? ==> o.value < |links| && p in links[o.value].Ports()
    ensures o.None? ==> forall i :: 0 <= i < |links| ==> p !in links[i].Ports()
  {
    if links == [] then None
    else if p in Last(links).Ports() then Some(|links| - 1)
    else Owner(Init(links), p)
  }

  /** The interface at p once all links are made: its link's far end and number, or what was there before. */
  function Expected(nodes: Nodes, links: seq<Link>, p: Port): Option<Interface> {
    var o := Owner(links, p);
    if o.Some? then Some(Joined(Base(nodes, p), links[o.value].Mate(p), o.value)) else Lookup(nodes, p)
  }

  ghost predicate Wired(nodes: Nodes, links: seq<Link>, result: Nodes) {
    result.Keys == nodes.Keys && forall p :: Lookup(result, p) == Expected(nodes, links, p)
  }

  lemma LookupPut(nodes: Nodes, p: Port, i: Interface, q: Port)
    requires p.node in nodes
    ensures Lookup(Put(nodes, p, i), q) == if q == p then Some(i) else Lookup(nodes, q)
  {
  }

  /** One round succeeds exactly if both ends are there and free; then it changes just those two interfaces. */
  lemma ConnectMeaning(nodes: Nodes, l: Link, uid: int)
    ensures var (result, err) := Connect(nodes, l, uid);
            && (err.None? <==> l.a.node in nodes && l.z.node in nodes && Unconnected(nodes, l.a) && Unconnected(nodes, l.z))
            && (err.None? ==>
                  && result.Keys == nodes.Keys
                  && forall p :: Lookup(result, p)
                                 == if p in l.Ports() then Some(Joined(Base(nodes, p), l.Mate(p), uid)) else Lookup(nodes, p))
  {
    if l.a.node in nodes && l.z.node in nodes {
      var nodes1 := Put(nodes, l.a, Base(nodes, l.a));
      var nodes2 := Put(nodes1, l.z, Base(nodes1, l.z));
      forall p ensures Lookup(nodes2, p) == if p in l.Ports() then Some(Base(nodes, p)) else Lookup(nodes, p) {
        LookupPut(nodes, l.a, Base(nodes, l.a), p);
        LookupPut(nodes, l.a, Base(nodes, l.a), l.z);
        LookupPut(nodes1, l.z, Base(nodes1, l.z), p);
      }
      if Unconnected(nodes, l.a) && Unconnected(nodes, l.z) {
        SetBoth(nodes2, l, uid);
      }
    }
  }

  lemma SetBoth(nodes: Nodes, l: Link, uid: int)
    requires l.a.node in nodes && l.z.node in nodes
    ensures var nodes1 := Put(nodes, l.a, Joined(Base(nodes, l.a), l.z, uid));
            var result := Put(nodes1, l.z, Joined(Base(nodes1, l.z), l.a, uid));
            && result.Keys == nodes.Keys
            && forall p :: Lookup(result, p)
                           == if p in l.Ports() then Some(Joined(Base(nodes, p), l.Mate(p), uid)) else Lookup(nodes, p)
  {
    var nodes1 := Put(nodes, l.a, Joined(Base(nodes, l.a), l.z, uid));
    var result := Put(nodes1, l.z, Joined(Base(nodes1, l.z), l.a, uid));
    forall p
      ensures Lookup(result, p)
              == if p in l.Ports() then Some(Joined(Base(nodes, p), l.Mate(p), uid)) else Lookup(nodes, p)
    {
      LookupPut(nodes, l.a, Joined(Base(nodes, l.a), l.z, uid), p);
      LookupPut(nodes, l.a, Joined(Base(nodes, l.a), l.z, uid), l.z);
      LookupPut(nodes1, l.z, Joined(Base(nodes1, l.z), l.a, uid), p);
    }
  }

  /**
   The link pass succeeds exactly when the topology is wirable. Link i then carries UID i at both ends,
   with mutual peer fields, and every other interface is as it was.
   */
  lemma {:induction false} LoadSucceedsExactlyWhenWirable(nodes: Nodes, links: seq<Link>)
    requires "" !in nodes
    ensures LoadMeans(nodes, links, ConnectAll(nodes, links).0, ConnectAll(nodes, links).1)
    decreases |links|
  {
    if links != [] {
      LoadSucceedsExactlyWhenWirable(nodes, Init(links));
      LoadNext(nodes, Init(links), Last(links));
      assert Init(links) + [Last(links)] == links;
    }
  }

  /** What the link pass has to say about the links. */
  ghost predicate LoadMeans(nodes: Nodes, links: seq<Link>, result: Nodes, err: Option<LoadError>) {
    (err.None? <==> Wirable(nodes, links)) && (err.None? ==> Wired(nodes, links, result))
  }

  lemma LoadNext(nodes: Nodes, rest: seq<Link>, l: Link)
    requires "" !in nodes && LoadMeans(nodes, rest, ConnectAll(nodes, rest).0, ConnectAll(nodes, rest).1)
    ensures LoadMeans(nodes, rest + [l], ConnectAll(nodes, rest + [l]).0, ConnectAll(nodes, rest + [l]).1)
  {
    var before := ConnectAll(nodes, rest);
    ConnectAllNext(nodes, rest, l);
    if before.1.Some? {
      WirablePrefix(nodes, rest, l);
    } else {
      NextLinkLoads(nodes, rest, before.0, l);
    }
  }

  lemma ConnectAllNext(nodes: Nodes, rest: seq<Link>, l: Link)
    ensures var before := ConnectAll(nodes, rest);
            ConnectAll(nodes, rest + [l]) == if before.1.Some? then before else Connect(before.0, l, |rest|)
  {
    assert Init(rest + [l]) == rest && Last(rest + [l]) == l;
  }

  lemma WirablePrefix(nodes: Nodes, rest: seq<Link>, l: Link)
    ensures Wirable(nodes, rest + [l]) ==> Wirable(nodes, rest)
  {
    assert forall i :: 0 <= i < |rest| ==> rest[i] == (rest + [l])[i];
  }

  /** One more link can be made exactly if the topology with it is wirable. */
  lemma NextLinkLoads(nodes: Nodes, rest: seq<Link>, before: Nodes, l: Link)
    requires "" !in nodes && Wirable(nodes, rest) && Wired(nodes, rest, before)
    ensures var (result, err) := Connect(before, l, |rest|);
            && (err.None? <==> Wirable(nodes, rest + [l]))
            && (err.None? ==> Wired(nodes, rest + [l], result))
  {
    ConnectMeaning(before, l, |rest|);
    FreePort(nodes, rest, before, l.a);
    FreePort(nodes, rest, before, l.z);
    WirableNext(nodes, rest, l);
    var (result, err) := Connect(before, l, |rest|);
    if err.None? {
      WiredNext(nodes, rest, before, l, result);
    }
  }

  /** After some links are made, a port is free exactly if none of them uses it and it was free before. */
  lemma FreePort(nodes: Nodes, links: seq<Link>, result: Nodes, p: Port)
    requires "" !in nodes && Wirable(nodes, links) && Wired(nodes, links, result)
    ensures Unconnected(result, p) <==> Owner(links, p).None? && Unconnected(nodes, p)
  {
    assert Lookup(result, p) == Expected(nodes, links, p);
    var o := Owner(links, p);
    if o.Some? {
      assert links[o.value].Mate(p).node in nodes;
    }
  }

  lemma WirableNext(nodes: Nodes, rest: seq<Link>, l: Link)
    requires Wirable(nodes, rest)
    ensures Wirable(nodes, rest + [l])
            <==> && l.a.node in nodes && l.z.node in nodes
                 && Unconnected(nodes, l.a) && Unconnected(nodes, l.z)
                 && Owner(rest, l.a).None? && Owner(rest, l.z).None?
  {
    var links := rest + [l];
    if Wirable(nodes, links) {
      assert links[|rest|] == l;
      forall p | p in l.Ports() ensures Owner(rest, p).None? {
        assert forall i :: 0 <= i < |rest| ==> links[i] == rest[i] && links[i].Ports() !! links[|rest|].Ports();
      }
    }
  }

  lemma ExpectedNext(nodes: Nodes, rest: seq<Link>, l: Link, p: Port)
    ensures Expected(nodes, rest + [l], p)
            == if p in l.Ports() then Some(Joined(Base(nodes, p), l.Mate(p), |rest|)) else Expected(nodes, rest, p)
  {
    assert Init(rest + [l]) == rest && Last(rest + [l]) == l;
    var o := Owner(rest, p);
    if p !in l.Ports() && o.Some? {
      assert (rest + [l])[o.value] == rest[o.value];
    }
  }

  /** A port that no link uses yet is as it was. */
  lemma SameBase(nodes: Nodes, rest: seq<Link>, before: Nodes, p: Port)
    requires Wired(nodes, rest, before)
    ensures Lookup(before, p) == Expected(nodes, rest, p)
    ensures Owner(rest, p).None? ==> Base(before, p) == Base(nodes, p)
  {
    assert Lookup(before, p) == Expected(nodes, rest, p);
  }

  lemma WiredNext(nodes: Nodes, rest: seq<Link>, before: Nodes, l: Link, result: Nodes)
    requires Wired(nodes, rest, before)
    requires Owner(rest, l.a).None? && Owner(rest, l.z).None?
    requires result.Keys == before.Keys
    requires forall p :: Lookup(result, p)
                         == if p in l.Ports() then Some(Joined(Base(before, p), l.Mate(p), |rest|)) else Lookup(before, p)
    ensures Wired(nodes, rest + [l], result)
  {
    forall p ensures Lookup(result, p) == Expected(nodes, rest + [l], p) {
      ExpectedNext(nodes, rest, l, p);
      SameBase(nodes, rest, before, p);
    }
  }

  // ---- What is loaded, field by field -------------------------------------

  /** The interface at p has `peer` and `uid`, and otherwise what it had, or its own name if it is new. */
  predicate EndIs(nodes: Nodes, result: Nodes, p: Port, peer: Port, uid: int) {
    && p.node in nodes && p.node in result && p.intf in result[p.node]
    && var i := result[p.node][p.intf];
       && i.peerName == peer.node && i.peerIntName == peer.intf && i.uid == uid
       && if p.intf in nodes[p.node]
          then i.intName == nodes[p.node][p.intf].intName && i.mtu == nodes[p.node][p.intf].mtu
          else i.intName == p.intf && i.mtu == 0
  }

  /** After a successful pass each link has joined its two ends, and what no link names is as it was. */
  lemma LoadedEnds(nodes: Nodes, links: seq<Link>, result: Nodes, i: nat)
    requires "" !in nodes && ConnectAll(nodes, links) == (result, None) && i < |links|
    ensures EndIs(nodes, result, links[i].a, links[i].z, i) && EndIs(nodes, result, links[i].z, links[i].a, i)
  {
    LoadSucceedsExactlyWhenWirable(nodes, links);
    LoadedEnd(nodes, links, result, i, links[i].a);
    LoadedEnd(nodes, links, result, i, links[i].z);
  }

  lemma LoadedEnd(nodes: Nodes, links: seq<Link>, result: Nodes, i: nat, p: Port)
    requires Wirable(nodes, links) && Wired(nodes, links, result) && i < |links| && p in links[i].Ports()
    ensures EndIs(nodes, result, p, links[i].Mate(p), i)
  {
    var o := Owner(links, p);
    assert o.Some? && p in links[o.value].Ports();
    assert o.value == i;
    assert Lookup(result, p) == Expected(nodes, links, p);
  }

  lemma OthersAreUntouched(nodes: Nodes, links: seq<Link>, result: Nodes, n: string, k: string)
    requires "" !in nodes && ConnectAll(nodes, links) == (result, None)
    requires forall i :: 0 <= i < |links| ==> links[i].a != Port(n, k) && links[i].z != Port(n, k)
    ensures n in result <==> n in nodes
    ensures n in nodes ==> (k in result[n] <==> k in nodes[n])
    ensures n in nodes && k in nodes[n] ==> result[n][k] == nodes[n][k]
  {
    LoadSucceedsExactlyWhenWirable(nodes, links);
    NotOwned(links, Port(n, k));
    UnownedIsUntouched(nodes, links, result, n, k);
  }

  lemma NotOwned(links: seq<Link>, p: Port)
    requires forall i :: 0 <= i < |links| ==> links[i].a != p && links[i].z != p
    ensures Owner(links, p).None?
  {
  }

  lemma UnownedIsUntouched(nodes: Nodes, links: seq<Link>, result: Nodes, n: string, k: string)
    requires Wired(nodes, links, result) && Owner(links, Port(n, k)).None?
    ensures n in result <==> n in nodes
    ensures n in nodes ==> (k in result[n] <==> k in nodes[n])
    ensures n in nodes && k in nodes[n] ==> result[n][k] == nodes[n][k]
  {
    assert Lookup(result, Port(n, k)) == Expected(nodes, links, Port(n, k));
  }

  /** The error is of the first link that cannot be made: an end's node is missing, or an end is taken. */
  ghost predicate Blames(nodes: Nodes, links: seq<Link>, k: nat, e: LoadError) {
    && k < |links| && Wirable(nodes, links[..k])
    && var l := links[k];
       match e
       case MissingNode(n) => n !in nodes && (n == l.a.node || (n == l.z.node && l.a.node in nodes))
       case AlreadyConnected(p) => l.a.node in nodes && l.z.node in nodes && Taken(nodes, links, k, p)
                                   && (p == l.a || (p == l.z && !Taken(nodes, links, k, l.a)))
       case LoopNotSupported(_) => false
  }

  /** The port had a peer before, or one of the first k links has given it one. */
  ghost predicate Taken(nodes: Nodes, links: seq<Link>, k: nat, p: Port)
    requires k <= |links|
  {
    !Unconnected(nodes, p) || exists i :: 0 <= i < k && p in links[i].Ports()
  }

  lemma {:induction false} FirstFailureIsBlamed(nodes: Nodes, links: seq<Link>, e: LoadError) returns (k: nat)
    requires "" !in nodes && ConnectAll(nodes, links).1 == Some(e)
    ensures Blames(nodes, links, k, e)
    decreases |links|
  {
    var rest, l := Init(links), Last(links);
    var before := ConnectAll(nodes, rest);
    assert links == rest + [l];
    ConnectAllNext(nodes, rest, l);
    if before.1.Some? {
      k := FirstFailureIsBlamed(nodes, rest, e);
      EarlierIsBlamed(nodes, links, k, e);
    } else {
      k := |rest|;
      LastIsBlamed(nodes, links, before.0);
    }
  }

  lemma EarlierIsBlamed(nodes: Nodes, links: seq<Link>, k: nat, e: LoadError)
    requires links != [] && Blames(nodes, Init(links), k, e)
    ensures Blames(nodes, links, k, e)
  {
    var rest := Init(links);
    assert links[..k] == rest[..k];
    assert forall p :: Taken(nodes, links, k, p) <==> Taken(nodes, rest, k, p);
  }

  lemma LastIsBlamed(nodes: Nodes, links: seq<Link>, before: Nodes)
    requires "" !in nodes && links != [] && ConnectAll(nodes, Init(links)) == (before, None)
    ensures var err := Connect(before, Last(links), |links| - 1).1;
            err.Some? ==> Blames(nodes, links, |links| - 1, err.value)
  {
    var rest, l := Init(links), Last(links);
    assert links[..|rest|] == rest;
    LoadSucceedsExactlyWhenWirable(nodes, rest);
    TakenPort(nodes, links, rest, before, l.a);
    TakenPort(nodes, links, rest, before, l.z);
    ConnectBlames(before, l, |rest|);
  }

  lemma TakenPort(nodes: Nodes, links: seq<Link>, rest: seq<Link>, result: Nodes, p: Port)
    requires "" !in nodes && Wirable(nodes, rest) && Wired(nodes, rest, result) && links != [] && rest == Init(links)
    ensures Unconnected(result, p) <==> !Taken(nodes, links, |rest|, p)
  {
    FreePort(nodes, rest, result, p);
    assert forall i :: 0 <= i < |rest| ==> links[i] == rest[i];
  }

  lemma ConnectBlames(nodes: Nodes, l: Link, uid: int)
    ensures var err := Connect(nodes, l, uid).1;
            err.Some? ==> match err.value
                          case MissingNode(n) => n !in nodes && (n == l.a.node || (n == l.z.node && l.a.node in nodes))
                          case AlreadyConnected(p) => l.a.node in nodes && l.z.node in nodes && !Unconnected(nodes, p)
                                                      && (p == l.a || (p == l.z && Unconnected(nodes, l.a)))
                          case LoopNotSupported(_) => false
  {
  }
}
