/**
 Whether a topology makes it from its nodes and links to resolved mesh links (topo/topo.go `load` and
 `topologySpecs`, topo/node/node.go `GetNodeLinks`), told from the nodes, the links and the renaming of interfaces.
 */
module TopologyOutcome {
  import opened Wrappers
  import opened TopologyLoad
  import opened TopologySpecs
  import opened TopologyWiring

  /** `GetNodeLinks` succeeds: every interface but the management one has a peer. */
  ghost predicate GetsLinks(interfaces: map<string, Interface>) {
    forall k :: k in Emitted(interfaces) ==> HasPeer(interfaces[k])
  }

  /** A topology as far as it gets: the specs of a node mean something only if its links could be got. */
  ghost predicate Attempted(w: Wiring) {
    && "" !in w.nodes && (forall p :: Unconnected(w.nodes, p))
    && w.loaded == ConnectAll(w.nodes, w.links).0
    && w.to.Keys == w.from.Keys == w.renamed.Keys == w.table.Keys == w.loaded.Keys
    && (forall n :: n in w.loaded ==> Renamed(w.loaded[n], w.to[n], w.from[n], w.renamed[n]))
    && (forall n :: n in w.loaded && GetsLinks(w.renamed[n]) ==> DefaultSpec(n, w.renamed[n], w.table[n]))
  }

  /** All links between interfaces of one node are on nodes that support it. */
  ghost predicate LoopsSupported(w: Wiring, backToBack: set<string>) {
    forall o :: 0 <= o < |w.links| ==> LoopSupported(w.links[o], backToBack)
  }

  /** The link pass, the loop check, the links of every node, and the resolution of every link succeed. */
  ghost predicate Succeeds(w: Wiring, backToBack: set<string>) {
    && ConnectAll(w.nodes, w.links).1.None? && LoopsSupported(w, backToBack)
    && (forall n :: n in w.renamed ==> GetsLinks(w.renamed[n]))
    && AllResolve(w.table)
  }

  /** Every interface that no link uses is the management interface. */
  ghost predicate AllLinked(w: Wiring) {
    forall p :: Lookup(w.nodes, p).Some? && Owner(w.links, p).None? ==> Key(w, p) == Some(MANAGEMENT)
  }

  /** The far end of every emitted end of a link has a name. */
  ghost predicate AllNamed(w: Wiring) {
    forall o, p :: 0 <= o < |w.links| && p in w.links[o].Ports() && PortEmitted(w, p) ==> w.links[o].Mate(p).intf != ""
  }

  /** What the loaded interface at p says about its peer. */
  lemma PortHasPeer(nodes: Nodes, links: seq<Link>, i: Interface, p: Port)
    requires "" !in nodes && Unconnected(nodes, p) && Wirable(nodes, links) && Expected(nodes, links, p) == Some(i)
    ensures var o := Owner(links, p);
            HasPeer(i) <==> o.Some? && links[o.value].Mate(p).intf != ""
    ensures Owner(links, p).None? ==> Lookup(nodes, p).Some?
  {
    var o := Owner(links, p);
    if o.Some? {
      assert links[o.value].Mate(p).node in nodes;
    }
  }

  /** Two links never share a port, so a link that uses it is its owner. */
  lemma OnlyOwner(nodes: Nodes, links: seq<Link>, o: nat, p: Port)
    requires Wirable(nodes, links) && o < |links| && p in links[o].Ports()
    ensures Owner(links, p) == Some(o)
  {
    var q := Owner(links, p).value;
    assert p in links[q].Ports();
  }

  /** An interface of the renamed node, seen from its old key. */
  lemma OldKey(w: Wiring, n: string, k: string) returns (p: Port)
    requires Attempted(w) && n in w.loaded && k in w.renamed[n]
    ensures p.node == n && Key(w, p) == Some(k) && Lookup(w.loaded, p) == Some(w.renamed[n][k])
  {
    assert Renamed(w.loaded[n], w.to[n], w.from[n], w.renamed[n]);
    p := Port(n, w.from[n][k]);
  }

  lemma LinkedHasPeer(w: Wiring, i: Interface, p: Port)
    requires "" !in w.nodes && Unconnected(w.nodes, p) && Wirable(w.nodes, w.links)
    requires AllLinked(w) && AllNamed(w) && Expected(w.nodes, w.links, p) == Some(i) && PortEmitted(w, p)
    ensures HasPeer(i)
  {
    PortHasPeer(w.nodes, w.links, i, p);
    var o := Owner(w.links, p);
    assert o.Some? ==> p in w.links[o.value].Ports();
  }

  lemma KeyHasPeer(w: Wiring, n: string, k: string)
    requires Attempted(w) && Wirable(w.nodes, w.links) && Wired(w.nodes, w.links, w.loaded)
    requires AllLinked(w) && AllNamed(w) && n in w.loaded && k in Emitted(w.renamed[n])
    ensures HasPeer(w.renamed[n][k])
  {
    var p := OldKey(w, n, k);
    assert Lookup(w.loaded, p) == Expected(w.nodes, w.links, p);
    LinkedHasPeer(w, w.renamed[n][k], p);
  }

  lemma LinksCanBeGot(w: Wiring, n: string)
    requires Attempted(w) && Wirable(w.nodes, w.links) && Wired(w.nodes, w.links, w.loaded)
    requires AllLinked(w) && AllNamed(w) && n in w.loaded
    ensures GetsLinks(w.renamed[n])
  {
    forall k | k in Emitted(w.renamed[n]) ensures HasPeer(w.renamed[n][k]) {
      KeyHasPeer(w, n, k);
    }
  }

  /** If the links of the node could be got, an emitted interface of it has a peer. */
  lemma EmittedHasPeer(w: Wiring, p: Port)
    requires Attempted(w) && Lookup(w.loaded, p).Some? && GetsLinks(w.renamed[p.node]) && PortEmitted(w, p)
    ensures HasPeer(Lookup(w.loaded, p).value)
  {
    var k := w.to[p.node][p.intf];
    assert k in Emitted(w.renamed[p.node]) && w.renamed[p.node][k] == w.loaded[p.node][p.intf];
  }

  lemma NewKey(w: Wiring, p: Port)
    requires Attempted(w) && Lookup(w.loaded, p).Some?
    ensures Key(w, p).Some?
  {
    assert Renamed(w.loaded[p.node], w.to[p.node], w.from[p.node], w.renamed[p.node]);
  }

  lemma UnlinkedIsManagement(w: Wiring, p: Port)
    requires Attempted(w) && Wirable(w.nodes, w.links) && Wired(w.nodes, w.links, w.loaded)
    requires p.node in w.loaded ==> GetsLinks(w.renamed[p.node])
    requires Lookup(w.nodes, p).Some? && Owner(w.links, p).None?
    ensures Key(w, p) == Some(MANAGEMENT)
  {
    assert Lookup(w.loaded, p) == Expected(w.nodes, w.links, p);
    PortHasPeer(w.nodes, w.links, Lookup(w.loaded, p).value, p);
    NewKey(w, p);
    if PortEmitted(w, p) {
      EmittedHasPeer(w, p);
    }
  }

  lemma EmittedIsNamed(w: Wiring, o: nat, p: Port)
    requires Attempted(w) && Wirable(w.nodes, w.links) && Wired(w.nodes, w.links, w.loaded)
    requires forall n :: n in w.loaded ==> GetsLinks(w.renamed[n])
    requires o < |w.links| && p in w.links[o].Ports() && PortEmitted(w, p)
    ensures w.links[o].Mate(p).intf != ""
  {
    OnlyOwner(w.nodes, w.links, o, p);
    assert Lookup(w.loaded, p) == Expected(w.nodes, w.links, p);
    PortHasPeer(w.nodes, w.links, Lookup(w.loaded, p).value, p);
    EmittedHasPeer(w, p);
  }

  lemma GotLinksAreNamed(w: Wiring)
    requires Attempted(w) && Wirable(w.nodes, w.links) && Wired(w.nodes, w.links, w.loaded)
    requires forall n :: n in w.loaded ==> GetsLinks(w.renamed[n])
    ensures AllLinked(w) && AllNamed(w)
  {
    forall p | Lookup(w.nodes, p).Some? && Owner(w.links, p).None? ensures Key(w, p) == Some(MANAGEMENT) {
      UnlinkedIsManagement(w, p);
    }
    forall o, p | 0 <= o < |w.links| && p in w.links[o].Ports() && PortEmitted(w, p)
      ensures w.links[o].Mate(p).intf != ""
    {
      EmittedIsNamed(w, o, p);
    }
  }

  /**
   A topology succeeds if and only if it is wirable, its loops are supported, every interface that no link uses is the
   management interface, the far ends of emitted ends have names, and of every link both ends are emitted or none is,
   and no link joins an interface with itself.
   */
  lemma SucceedsExactlyWhen(w: Wiring, backToBack: set<string>)
    requires Attempted(w)
    ensures Succeeds(w, backToBack)
            <==> && Wirable(w.nodes, w.links) && LoopsSupported(w, backToBack) && AllLinked(w) && AllNamed(w)
                 && forall o :: 0 <= o < |w.links| ==> Connectable(w, w.links[o])
  {
    LoadSucceedsExactlyWhenWirable(w.nodes, w.links);
    if Wirable(w.nodes, w.links) {
      if forall n :: n in w.loaded ==> GetsLinks(w.renamed[n]) {
        GotLinksAreNamed(w);
        AttemptedIsBuilt(w);
        ResolvesExactlyWhenConnectable(w);
      } else if AllLinked(w) && AllNamed(w) {
        forall n | n in w.loaded ensures GetsLinks(w.renamed[n]) {
          LinksCanBeGot(w, n);
        }
      }
    }
  }

  lemma AttemptedIsBuilt(w: Wiring)
    requires Attempted(w) && ConnectAll(w.nodes, w.links).1.None?
    requires forall n :: n in w.loaded ==> GetsLinks(w.renamed[n])
    ensures Built(w)
  {
  }
}
