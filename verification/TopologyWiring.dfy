/**
 The whole way of a link: `load` numbers it, nodes may rename their interface keys, `GetNodeLinks`
 emits both ends, and `topologySpecs` finds each end its peer by UID (topo/topo.go, topo/node/node.go).
 */
module TopologyWiring {
  import opened Wrappers
  import opened TopologyLoad
  import opened TopologySpecs

  /**
   `after` holds the interfaces of `before` under new keys, no two under the same: `to` and `from` are inverse.
   Node types rename keys this way; the peer fields inside keep the old names.
   */
  ghost predicate Renamed(before: map<string, Interface>, to: map<string, string>, from: map<string, string>,
                          after: map<string, Interface>) {
    && to.Keys == before.Keys && from.Keys == after.Keys
    && (forall k :: k in to ==> to[k] in from && from[to[k]] == k)
    && (forall k :: k in from ==> from[k] in to && to[from[k]] == k && after[k] == before[from[k]])
  }

  /** One spec per node, named after it, with the links `GetNodeLinks` returned. */
  ghost predicate DefaultSpec(n: string, interfaces: map<string, Interface>, specs: seq<Spec>) {
    && |specs| == 1 && specs[0].name == n
    && Lists(interfaces, Emitted(interfaces), specs[0].links)
    && forall k :: k in Emitted(interfaces) ==> HasPeer(interfaces[k])
  }

  /** A topology on its way: as read, loaded, renamed node by node, and emitted. */
  datatype Wiring = Wiring(
    nodes: Nodes, links: seq<Link>, loaded: Nodes, to: map<string, map<string, string>>,
    from: map<string, map<string, string>>, renamed: Nodes, table: Table)

  ghost predicate Built(w: Wiring) {
    && "" !in w.nodes
    && (forall p :: Unconnected(w.nodes, p))
    && ConnectAll(w.nodes, w.links) == (w.loaded, None)
    && w.to.Keys == w.from.Keys == w.renamed.Keys == w.table.Keys == w.loaded.Keys
    && (forall n :: n in w.loaded ==> Renamed(w.loaded[n], w.to[n], w.from[n], w.renamed[n]))
    && (forall n :: n in w.loaded ==> DefaultSpec(n, w.renamed[n], w.table[n]))
  }

  /** The links node n emits. */
  function Links(w: Wiring, n: string): seq<MeshLink> {
    if n in w.table && |w.table[n]| == 1 then w.table[n][0].links else []
  }

  /** Link j of node n with its peer resolved. */
  function Peered(w: Wiring, n: string, j: nat): Option<MeshLink>
    requires j < |Links(w, n)|
  {
    ResolveIn(w.table, n, Links(w, n)[j])
  }

  /** The key of p after renaming. */
  function Key(w: Wiring, p: Port): Option<string> {
    if p.node in w.to && p.intf in w.to[p.node] then Some(w.to[p.node][p.intf]) else None
  }

  /** The port, under its old key, that link j of node n is the end of. */
  function PortAt(w: Wiring, n: string, j: nat): Port
    requires j < |Links(w, n)|
  {
    var k := Links(w, n)[j].localIntf;
    Port(n, if n in w.from && k in w.from[n] then w.from[n][k] else k)
  }

  // ---- What an emitted link is --------------------------------------------

  /** Link j of node n is an end of the link whose number is its UID, and names the far end's node. */
  predicate Stands(w: Wiring, n: string, j: nat)
    requires j < |Links(w, n)|
  {
    var l, p := Links(w, n)[j], PortAt(w, n, j);
    && 0 <= l.uid < |w.links|
    && p in w.links[l.uid].Ports()
    && l.peerPod == w.links[l.uid].Mate(p).node
    && Key(w, p) == Some(l.localIntf)
  }

  /** All that matters of how the table came about. */
  ghost predicate Placed(w: Wiring) {
    && (forall n :: n in w.table ==> |w.table[n]| == 1 && w.table[n][0].name == n)
    && (forall n, j :: 0 <= j < |Links(w, n)| ==> Stands(w, n, j))
    && (forall n, i, j :: 0 <= i < j < |Links(w, n)| ==> Links(w, n)[i].localIntf != Links(w, n)[j].localIntf)
  }

  lemma EmittedStands(w: Wiring, n: string, j: nat)
    requires Built(w) && j < |Links(w, n)|
    ensures Stands(w, n, j)
  {
    LoadSucceedsExactlyWhenWirable(w.nodes, w.links);
    assert DefaultSpec(n, w.renamed[n], w.table[n]) && Renamed(w.loaded[n], w.to[n], w.from[n], w.renamed[n]);
    var l, p := Links(w, n)[j], PortAt(w, n, j);
    assert l == LinkOf(l.localIntf, w.loaded[n][p.intf]) && HasPeer(w.loaded[n][p.intf]);
    assert Lookup(w.loaded, p) == Expected(w.nodes, w.links, p);
    assert Unconnected(w.nodes, p);
  }

  lemma NodePlaced(w: Wiring, n: string)
    requires Built(w) && n in w.table
    ensures |w.table[n]| == 1 && w.table[n][0].name == n
    ensures forall i, j :: 0 <= i < j < |Links(w, n)| ==> Links(w, n)[i].localIntf != Links(w, n)[j].localIntf
    ensures forall j :: 0 <= j < |Links(w, n)| ==> Links(w, n)[j].localIntf != MANAGEMENT
  {
    assert DefaultSpec(n, w.renamed[n], w.table[n]);
  }

  lemma AllPlaced(w: Wiring)
    requires Built(w)
    ensures forall n :: n in w.table ==> |w.table[n]| == 1 && w.table[n][0].name == n
    ensures forall n, i, j :: 0 <= i < j < |Links(w, n)| ==> Links(w, n)[i].localIntf != Links(w, n)[j].localIntf
  {
    forall n | n in w.table
      ensures |w.table[n]| == 1 && w.table[n][0].name == n
      ensures forall i, j :: 0 <= i < j < |Links(w, n)| ==> Links(w, n)[i].localIntf != Links(w, n)[j].localIntf
    {
      NodePlaced(w, n);
    }
  }

  lemma AllStand(w: Wiring)
    requires Built(w)
    ensures forall n, j :: 0 <= j < |Links(w, n)| ==> Stands(w, n, j)
  {
    forall n, j | 0 <= j < |Links(w, n)| ensures Stands(w, n, j) {
      EmittedStands(w, n, j);
    }
  }

  lemma BuiltIsPlaced(w: Wiring)
    requires Built(w)
    ensures Placed(w)
  {
    AllPlaced(w);
    AllStand(w);
  }

  // ---- Mutual peers -------------------------------------------------------

  /** A port is emitted at most once. */
  lemma EmittedOnce(w: Wiring, n: string, i: nat, j: nat)
    requires Placed(w) && i < |Links(w, n)| && j < |Links(w, n)| && PortAt(w, n, i) == PortAt(w, n, j)
    ensures i == j
  {
    assert Stands(w, n, i) && Stands(w, n, j);
  }

  /** Resolution looks through the one spec of the peer node. */
  lemma PeeredIn(w: Wiring, n: string, j: nat)
    requires Placed(w) && j < |Links(w, n)|
    ensures var l := Links(w, n)[j];
            var first := FirstIn(n, l, Links(w, l.peerPod), 0);
            Peered(w, n, j)
            == if first.None? then None else Some(l.(peerIntf := Links(w, l.peerPod)[first.value].localIntf))
  {
    var l := Links(w, n)[j];
    if l.peerPod in w.table {
      assert Resolve(n, l, w.table[l.peerPod], 1) == None;
    }
  }

  /** If link j of node n resolves, it resolves to the far end of its link, which is another port. */
  lemma ResolvesToMate(w: Wiring, n: string, j: nat) returns (j': nat)
    requires Placed(w) && j < |Links(w, n)| && Peered(w, n, j).Some?
    ensures var l := Links(w, n)[j];
            && Stands(w, n, j)
            && j' < |Links(w, l.peerPod)| && Stands(w, l.peerPod, j')
            && Links(w, l.peerPod)[j'].uid == l.uid
            && PortAt(w, l.peerPod, j') == w.links[l.uid].Mate(PortAt(w, n, j)) != PortAt(w, n, j)
            && Peered(w, n, j) == Some(l.(peerIntf := Links(w, l.peerPod)[j'].localIntf))
  {
    var l := Links(w, n)[j];
    PeeredIn(w, n, j);
    j' := FirstIn(n, l, Links(w, l.peerPod), 0).value;
    assert Stands(w, n, j) && Stands(w, l.peerPod, j');
    assert Matches(n, l, Links(w, l.peerPod)[j']);
  }

  /** At most two emitted links carry one UID: the two ends of its link. */
  lemma OnlyTwo(w: Wiring, n: string, j: nat, n': string, j': nat, m: string, i: nat)
    requires Placed(w) && j < |Links(w, n)| && j' < |Links(w, n')| && i < |Links(w, m)|
    requires Links(w, m)[i].uid == Links(w, n)[j].uid == Links(w, n')[j'].uid
    requires PortAt(w, n, j) != PortAt(w, n', j')
    ensures (m, i) == (n, j) || (m, i) == (n', j')
  {
    assert Stands(w, n, j) && Stands(w, n', j') && Stands(w, m, i);
    var p, q, r := PortAt(w, n, j), PortAt(w, n', j'), PortAt(w, m, i);
    assert r == p || r == q;
    if r == p {
      EmittedOnce(w, n, i, j);
    } else {
      EmittedOnce(w, n', i, j');
    }
  }

  /**
   Whenever loading and resolution succeed, every emitted link has exactly one partner with its UID, and
   each of the two names the other's pod and local interface as its peer -- under the interfaces'
   final names, although the peer fields written by `load` still hold the old ones.
   */
  lemma LinksAreMutual(w: Wiring, n: string, j: nat) returns (n': string, j': nat)
    requires Built(w) && AllResolve(w.table) && j < |Links(w, n)|
    ensures j' < |Links(w, n')| && (n', j') != (n, j)
    ensures Peered(w, n, j) == Some(Links(w, n)[j].(peerPod := n', peerIntf := Links(w, n')[j'].localIntf))
    ensures Peered(w, n', j') == Some(Links(w, n')[j'].(peerPod := n, peerIntf := Links(w, n)[j].localIntf))
    ensures Links(w, n')[j'].uid == Links(w, n)[j].uid
    ensures forall m, i :: 0 <= i < |Links(w, m)| && Links(w, m)[i].uid == Links(w, n)[j].uid
                           ==> (m, i) == (n, j) || (m, i) == (n', j')
  {
    BuiltIsPlaced(w);
    n', j' := PlacedAreMutual(w, n, j);
  }

  lemma AllPeered(w: Wiring, n: string, j: nat)
    requires AllResolve(w.table) && j < |Links(w, n)|
    ensures Peered(w, n, j).Some?
  {
  }

  lemma PlacedAreMutual(w: Wiring, n: string, j: nat) returns (n': string, j': nat)
    requires Placed(w) && AllResolve(w.table) && j < |Links(w, n)|
    ensures j' < |Links(w, n')| && (n', j') != (n, j)
    ensures Peered(w, n, j) == Some(Links(w, n)[j].(peerPod := n', peerIntf := Links(w, n')[j'].localIntf))
    ensures Peered(w, n', j') == Some(Links(w, n')[j'].(peerPod := n, peerIntf := Links(w, n)[j].localIntf))
    ensures Links(w, n')[j'].uid == Links(w, n)[j].uid
    ensures forall m, i :: 0 <= i < |Links(w, m)| && Links(w, m)[i].uid == Links(w, n)[j].uid
                           ==> (m, i) == (n, j) || (m, i) == (n', j')
  {
    n' := Links(w, n)[j].peerPod;
    AllPeered(w, n, j);
    j' := ResolvesToMate(w, n, j);
    AllPeered(w, n', j');
    ResolvesBack(w, n, j, n', j');
    forall m, i | 0 <= i < |Links(w, m)| && Links(w, m)[i].uid == Links(w, n)[j].uid
      ensures (m, i) == (n, j) || (m, i) == (n', j')
    {
      OnlyTwo(w, n, j, n', j', m, i);
    }
  }

  /** The far end of a far end is where one started. */
  lemma ResolvesBack(w: Wiring, n: string, j: nat, n': string, j': nat)
    requires Placed(w) && j < |Links(w, n)| && j' < |Links(w, n')| && Peered(w, n', j').Some?
    requires Stands(w, n, j) && Links(w, n)[j].uid == Links(w, n')[j'].uid
    requires PortAt(w, n', j') == w.links[Links(w, n)[j].uid].Mate(PortAt(w, n, j)) != PortAt(w, n, j)
    ensures Peered(w, n', j') == Some(Links(w, n')[j'].(peerPod := n, peerIntf := Links(w, n)[j].localIntf))
  {
    var back := ResolvesToMate(w, n', j');
    EmittedOnce(w, n, back, j);
  }

  /** What `topologySpecs` returns for a node is its spec with every link peered. */
  lemma OutputIsPeered(w: Wiring, n: string)
    requires Placed(w) && AllResolve(w.table) && n in w.table
    ensures |ResolvedAll(w.table)[n]| == 1 && ResolvedAll(w.table)[n][0].name == n
    ensures |ResolvedAll(w.table)[n][0].links| == |Links(w, n)|
    ensures forall j :: 0 <= j < |Links(w, n)| ==> Peered(w, n, j) == Some(ResolvedAll(w.table)[n][0].links[j])
  {
  }

  // ---- When resolution succeeds -------------------------------------------

  /** Port p is emitted: its key is not the management interface's. */
  predicate PortEmitted(w: Wiring, p: Port) {
    Key(w, p).Some? && Key(w, p).value != MANAGEMENT
  }

  /** Both ends are emitted or none is, and then they are two different interfaces. */
  predicate Connectable(w: Wiring, l: Link) {
    && (PortEmitted(w, l.a) <==> PortEmitted(w, l.z))
    && (PortEmitted(w, l.a) ==> l.a != l.z)
  }

  /** Every emitted end of a link is at some position of the table, and only emitted ends are. */
  ghost predicate Complete(w: Wiring) {
    && (forall o, p :: 0 <= o < |w.links| && p in w.links[o].Ports() && PortEmitted(w, p) ==> Found(w, o, p))
    && (forall n, j :: 0 <= j < |Links(w, n)| ==> Links(w, n)[j].localIntf != MANAGEMENT)
  }

  ghost predicate Found(w: Wiring, o: nat, p: Port) {
    exists j :: 0 <= j < |Links(w, p.node)| && PortAt(w, p.node, j) == p && Links(w, p.node)[j].uid == o
  }

  lemma LinkEndIsLoaded(w: Wiring, o: nat, p: Port)
    requires Built(w) && o < |w.links| && p in w.links[o].Ports()
    ensures Lookup(w.loaded, p).Some? && Lookup(w.loaded, p).value.uid == o
  {
    LoadSucceedsExactlyWhenWirable(w.nodes, w.links);
    var owner := Owner(w.links, p).value;
    assert Lookup(w.loaded, p) == Expected(w.nodes, w.links, p);
  }

  lemma LinkEndIsFound(w: Wiring, o: nat, p: Port)
    requires Built(w) && o < |w.links| && p in w.links[o].Ports() && PortEmitted(w, p)
    ensures Found(w, o, p)
  {
    LinkEndIsLoaded(w, o, p);
    var n := p.node;
    var j := KeyListed(n, w.loaded[n], w.to[n], w.from[n], w.renamed[n], w.table[n], p.intf);
    assert Links(w, n)[j] == LinkOf(w.to[n][p.intf], w.loaded[n][p.intf]);
  }

  /** Within one node: an interface of `before` that is not renamed to the management interface is listed. */
  lemma KeyListed(n: string, before: map<string, Interface>, to: map<string, string>, from: map<string, string>,
                  after: map<string, Interface>, specs: seq<Spec>, k: string) returns (j: nat)
    requires Renamed(before, to, from, after) && DefaultSpec(n, after, specs)
    requires k in before && to[k] != MANAGEMENT
    ensures j < |specs[0].links| && specs[0].links[j] == LinkOf(to[k], before[k]) && from[to[k]] == k
  {
    assert to[k] in Emitted(after);
    j :| 0 <= j < |specs[0].links| && specs[0].links[j].localIntf == to[k];
  }

  lemma BuiltIsComplete(w: Wiring)
    requires Built(w)
    ensures Complete(w)
  {
    forall o, p | 0 <= o < |w.links| && p in w.links[o].Ports() && PortEmitted(w, p) ensures Found(w, o, p) {
      LinkEndIsFound(w, o, p);
    }
    forall n, j | 0 <= j < |Links(w, n)| ensures Links(w, n)[j].localIntf != MANAGEMENT {
      NodePlaced(w, n);
    }
  }

  lemma MateIsFound(w: Wiring, n: string, j: nat)
    requires Placed(w) && Complete(w) && j < |Links(w, n)|
    requires Stands(w, n, j) && Connectable(w, w.links[Links(w, n)[j].uid])
    ensures Peered(w, n, j).Some?
  {
    var l, p := Links(w, n)[j], PortAt(w, n, j);
    var q := w.links[l.uid].Mate(p);
    assert PortEmitted(w, p) && PortEmitted(w, q) && p != q;
    assert Found(w, l.uid, q);
    var j' :| 0 <= j' < |Links(w, q.node)| && PortAt(w, q.node, j') == q && Links(w, q.node)[j'].uid == l.uid;
    assert Stands(w, q.node, j');
    assert Matches(n, l, Links(w, q.node)[j']);
    PeeredIn(w, n, j);
  }

  lemma EndResolved(w: Wiring, o: nat, p: Port)
    requires Placed(w) && Complete(w) && AllResolve(w.table)
    requires o < |w.links| && p in w.links[o].Ports() && PortEmitted(w, p)
    ensures PortEmitted(w, w.links[o].Mate(p)) && w.links[o].Mate(p) != p
  {
    assert Found(w, o, p);
    var j :| 0 <= j < |Links(w, p.node)| && PortAt(w, p.node, j) == p && Links(w, p.node)[j].uid == o;
    AllPeered(w, p.node, j);
    var j' := ResolvesToMate(w, p.node, j);
  }

  lemma ResolvedIsConnectable(w: Wiring, o: nat)
    requires Placed(w) && Complete(w) && AllResolve(w.table) && o < |w.links|
    ensures Connectable(w, w.links[o])
  {
    var l := w.links[o];
    if PortEmitted(w, l.a) {
      EndResolved(w, o, l.a);
    }
    if PortEmitted(w, l.z) {
      EndResolved(w, o, l.z);
    }
  }

  lemma ConnectableIsResolved(w: Wiring, n: string, i: nat, j: nat)
    requires Placed(w) && Complete(w) && n in w.table && i < |w.table[n]| && j < |w.table[n][i].links|
    requires forall o :: 0 <= o < |w.links| ==> Connectable(w, w.links[o])
    ensures ResolveIn(w.table, n, w.table[n][i].links[j]).Some?
  {
    assert Links(w, n) == w.table[n][i].links;
    assert Stands(w, n, j);
    MateIsFound(w, n, j);
  }

  /**
   Resolution succeeds exactly if every link is connectable: a link with one end on the management
   interface, or from an interface to itself, passes `load` and fails here.
   */
  lemma ResolvesExactlyWhenConnectable(w: Wiring)
    requires Built(w)
    ensures AllResolve(w.table) <==> forall o :: 0 <= o < |w.links| ==> Connectable(w, w.links[o])
  {
    BuiltIsPlaced(w);
    BuiltIsComplete(w);
    PlacedResolves(w);
  }

  lemma PlacedResolves(w: Wiring)
    requires Placed(w) && Complete(w)
    ensures AllResolve(w.table) <==> forall o :: 0 <= o < |w.links| ==> Connectable(w, w.links[o])
  {
    if AllResolve(w.table) {
      forall o | 0 <= o < |w.links| ensures Connectable(w, w.links[o]) {
        ResolvedIsConnectable(w, o);
      }
    } else if forall o :: 0 <= o < |w.links| ==> Connectable(w, w.links[o]) {
      forall n, i, j | n in w.table && 0 <= i < |w.table[n]| && 0 <= j < |w.table[n][i].links|
        ensures ResolveIn(w.table, n, w.table[n][i].links[j]).Some?
      {
        ConnectableIsResolved(w, n, i, j);
      }
    }
  }

  // ---- What travels with a link -------------------------------------------

  /** The MTU set for p before loading, 0 if there was no such interface. */
  function MtuOf(nodes: Nodes, p: Port): int {
    if p.node in nodes && p.intf in nodes[p.node] then nodes[p.node][p.intf].mtu else 0
  }

  /** An emitted link keeps its interface's MTU, and resolving its peer changes neither that nor UID and local interface. */
  lemma EmittedKeepsMtu(w: Wiring, n: string, j: nat)
    requires Built(w) && j < |Links(w, n)| && Peered(w, n, j).Some?
    ensures var l, r := Links(w, n)[j], Peered(w, n, j).value;
            r.mtu == MtuOf(w.nodes, PortAt(w, n, j)) && r.uid == l.uid && r.localIntf == l.localIntf
  {
    LoadSucceedsExactlyWhenWirable(w.nodes, w.links);
    EmittedStands(w, n, j);
    ResolveKeepsIdentity(w.table, n, Links(w, n)[j]);
    assert DefaultSpec(n, w.renamed[n], w.table[n]) && Renamed(w.loaded[n], w.to[n], w.from[n], w.renamed[n]);
    var p := PortAt(w, n, j);
    assert Lookup(w.loaded, p) == Expected(w.nodes, w.links, p);
  }
}
