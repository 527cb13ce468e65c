/**
 The ring generated by `kne topology generate-ring` (cmd/topology/topology.go `generateRingFn`): `count` copies of
 a node, each joined to the next by `links` links.
 */
module RingTopology {
  import opened Wrappers
  import opened Names
  import opened TopologyLoad
  import opened TopologySpecs
  import opened TopologyWiring
  import opened TopologyOutcome
  import opened InterfaceNames

  function NodeName(base: string, i: nat): string {
    Numbered(base + "-", i)
  }

  /** Link j, from 1, out of node i. */
  function RingLink(base: string, count: nat, links: nat, i: nat, j: nat): Link
    requires count > 0
  {
    Link(Port(NodeName(base, i), EthName(j)), Port(NodeName(base, (i + 1) % count), EthName(j + links)))
  }

  /** The first j links out of node i. */
  function Row(base: string, count: nat, links: nat, i: nat, j: nat): (row: seq<Link>)
    requires count > 0
    ensures |row| == j
    ensures forall k :: 0 <= k < j ==> row[k] == RingLink(base, count, links, i, k + 1)
  {
    if j == 0 then [] else Row(base, count, links, i, j - 1) + [RingLink(base, count, links, i, j)]
  }

  /** The links of the first n nodes, node after node. */
  function Rows(base: string, count: nat, links: nat, n: nat): (rows: seq<Link>)
    requires count > 0
    ensures |rows| == n * links
  {
    if n == 0 then []
    else
      assert n * links == (n - 1) * links + links;
      Rows(base, count, links, n - 1) + Row(base, count, links, n - 1, links)
  }

  datatype Ring = Ring(nodes: seq<string>, links: seq<Link>)

  /** Fewer than two nodes or no links are refused. */
  method GenerateRing(base: string, count: int, links: int) returns (r: Option<Ring>)
    ensures r.None? <==> links <= 0 || count <= 1
    ensures r.Some? ==> r.value.nodes == seq(count, i requires 0 <= i < count => NodeName(base, i))
    ensures r.Some? ==> r.value.links == Rows(base, count, links, count) && |r.value.links| == count * links
  {
    if links <= 0 {
      return None;
    }
    if count <= 1 {
      return None;
    }
    var nodes := RingOfNodes(base, count);
    var ls := RingOfLinks(base, count, links);
    r := Some(Ring(nodes, ls));
  }

  method RingOfNodes(base: string, count: nat) returns (nodes: seq<string>)
    ensures nodes == seq(count, i requires 0 <= i < count => NodeName(base, i))
  {
    nodes := [];
    for i := 0 to count
      invariant nodes == seq(i, k requires 0 <= k < i => NodeName(base, k))
    {
      nodes := nodes + [NodeName(base, i)];
    }
  }

  method RingOfLinks(base: string, count: nat, links: nat) returns (ls: seq<Link>)
    requires count > 1
    ensures ls == Rows(base, count, links, count)
  {
    ls := [];
    for i := 0 to count
      invariant ls == Rows(base, count, links, i)
    {
      for j := 1 to links + 1
        invariant ls == Rows(base, count, links, i) + Row(base, count, links, i, j - 1)
      {
        var aNode := Numbered(base + "-", i);
        var aInt := Numbered("eth", j);
        var zNodeIndex := (i + 1) % count;
        var zNode := Numbered(base + "-", zNodeIndex);
        var zInt := Numbered("eth", j + links);
        ls := ls + [Link(Port(aNode, aInt), Port(zNode, zInt))];
      }
    }
  }

  // ---- The ring is a topology ---------------------------------------------

  /** Which link the k-th one is. */
  lemma {:induction false} RingLinkAt(base: string, count: nat, links: nat, n: nat, k: nat) returns (i: nat, j: nat)
    requires count > 0 && k < |Rows(base, count, links, n)|
    ensures i < n && 1 <= j <= links && k == |Rows(base, count, links, i)| + j - 1
    ensures Rows(base, count, links, n)[k] == RingLink(base, count, links, i, j)
    decreases n
  {
    var before := Rows(base, count, links, n - 1);
    if k >= |before| {
      i, j := n - 1, k - |before| + 1;
    } else {
      i, j := RingLinkAt(base, count, links, n - 1, k);
    }
  }

  /** Every link of the ring is there. */
  lemma {:induction false} HasRingLink(base: string, count: nat, links: nat, n: nat, i: nat, j: nat) returns (k: nat)
    requires count > 0 && i < n && 1 <= j <= links
    ensures k == i * links + j - 1
    ensures k < |Rows(base, count, links, n)| && Rows(base, count, links, n)[k] == RingLink(base, count, links, i, j)
    decreases n
  {
    if i == n - 1 {
      k := |Rows(base, count, links, i)| + j - 1;
    } else {
      k := HasRingLink(base, count, links, n - 1, i, j);
    }
  }

  lemma NextAround(count: nat, i: nat)
    requires i < count
    ensures (i + 1) % count == if i + 1 == count then 0 else i + 1
  {
  }

  /** Link j goes from port j of node i to port j + links of the next node around. */
  lemma RingLinkJoins(base: string, count: nat, links: nat, i: nat, j: nat)
    requires i < count
    ensures var l, next := RingLink(base, count, links, i, j), if i + 1 == count then 0 else i + 1;
            && l.a == Port(base + "-" + Decimal(i), "eth" + Decimal(j))
            && l.z == Port(base + "-" + Decimal(next), "eth" + Decimal(j + links))
  {
    NextAround(count, i);
  }

  /** The next node around the ring is another one, and no two nodes have the same next. */
  lemma NextNode(count: nat, i: nat, i': nat)
    requires count > 1 && i < count && i' < count
    ensures (i + 1) % count < count && (i + 1) % count != i
    ensures (i + 1) % count == (i' + 1) % count ==> i == i'
  {
    assert (i + 1) % count == if i + 1 == count then 0 else i + 1;
    assert (i' + 1) % count == if i' + 1 == count then 0 else i' + 1;
  }

  lemma SamePort(base: string, i: nat, j: nat, i': nat, j': nat)
    requires Port(NodeName(base, i), EthName(j)) == Port(NodeName(base, i'), EthName(j'))
    ensures i == i' && j == j'
  {
    NumberedInjective(base + "-", i, i');
    NumberedInjective("eth", j, j');
  }

  lemma RingLinksDisjoint(base: string, count: nat, links: nat, i: nat, j: nat, i': nat, j': nat)
    requires count > 1 && i < count && i' < count && 1 <= j <= links && 1 <= j' <= links && (i, j) != (i', j')
    ensures RingLink(base, count, links, i, j).Ports() !! RingLink(base, count, links, i', j').Ports()
  {
    NextNode(count, i, i');
    var l, l' := RingLink(base, count, links, i, j), RingLink(base, count, links, i', j');
    if l.a == l'.a {
      SamePort(base, i, j, i', j');
    }
    if l.z == l'.z {
      SamePort(base, (i + 1) % count, j + links, (i' + 1) % count, j' + links);
    }
    if l.a == l'.z {
      SamePort(base, i, j, (i' + 1) % count, j' + links);
    }
    if l.z == l'.a {
      SamePort(base, (i + 1) % count, j + links, i', j');
    }
  }

  /** The nodes of the ring, without interfaces yet. */
  function RingNodes(base: string, count: nat): Nodes {
    map i | 0 <= i < count :: NodeName(base, i) := map[]
  }

  lemma RingNodesAre(base: string, count: nat)
    ensures "" !in RingNodes(base, count)
    ensures forall i :: 0 <= i < count ==> NodeName(base, i) in RingNodes(base, count)
    ensures forall p :: Lookup(RingNodes(base, count), p) == None
  {
    var nodes := RingNodes(base, count);
    forall n | n in nodes ensures n != "" && nodes[n] == map[] {
      var i :| 0 <= i < count && n == NodeName(base, i);
      assert |n| > 0;
    }
  }

  /** The generated ring passes the link pass and the loop check of `load`, whatever nodes it is made of. */
  lemma RingIsWirable(base: string, count: nat, links: nat)
    requires count > 1
    ensures Wirable(RingNodes(base, count), Rows(base, count, links, count))
    ensures forall k :: 0 <= k < count * links ==> LoopSupported(Rows(base, count, links, count)[k], {})
  {
    var nodes, ls := RingNodes(base, count), Rows(base, count, links, count);
    RingNodesAre(base, count);
    forall k | 0 <= k < |ls|
      ensures ls[k].a.node in nodes && ls[k].z.node in nodes && LoopSupported(ls[k], {})
    {
      var i, j := RingLinkAt(base, count, links, count, k);
      NextNode(count, i, i);
      if ls[k].a.node == ls[k].z.node {
        NumberedInjective(base + "-", i, (i + 1) % count);
      }
    }
    forall k, k' | 0 <= k < k' < |ls| ensures ls[k].Ports() !! ls[k'].Ports() {
      var i, j := RingLinkAt(base, count, links, count, k);
      var i', j' := RingLinkAt(base, count, links, count, k');
      RingLinksDisjoint(base, count, links, i, j, i', j');
    }
  }

  function EthNames(n: nat): set<string> {
    set e | 1 <= e <= n :: EthName(e)
  }

  lemma {:induction false} EthNamesSize(n: nat)
    ensures |EthNames(n)| == n
    decreases n
  {
    if n > 0 {
      EthNamesSize(n - 1);
      assert EthNames(n) == EthNames(n - 1) + {EthName(n)};
      if EthName(n) in EthNames(n - 1) {
        var e :| 1 <= e <= n - 1 && EthName(n) == EthName(e);
        NumberedInjective("eth", n, e);
      }
    } else {
      assert EthNames(0) == {};
    }
  }

  lemma EndsAreUsed(base: string, count: nat, links: nat, i: nat, j: nat)
    requires i < count && 1 <= j <= links
    ensures Owner(Rows(base, count, links, count), RingLink(base, count, links, i, j).a).Some?
    ensures Owner(Rows(base, count, links, count), RingLink(base, count, links, i, j).z).Some?
  {
    var k := HasRingLink(base, count, links, count, i, j);
  }

  lemma PreviousNode(count: nat, i: nat) returns (prev: nat)
    requires i < count
    ensures prev < count && (prev + 1) % count == i
  {
    prev := if i == 0 then count - 1 else i - 1;
  }

  /** The ports 1 to 2 * links of every node are ends of links of the ring. */
  lemma PortUsed(base: string, count: nat, links: nat, i: nat, e: nat)
    requires count > 1 && i < count && 1 <= e <= 2 * links
    ensures Owner(Rows(base, count, links, count), Port(NodeName(base, i), EthName(e))).Some?
  {
    if e <= links {
      EndsAreUsed(base, count, links, i, e);
    } else {
      var prev := PreviousNode(count, i);
      EndsAreUsed(base, count, links, prev, e - links);
    }
  }

  lemma UsedPort(base: string, count: nat, links: nat, i: nat, p: Port)
    requires count > 1 && p.node == NodeName(base, i)
    requires Owner(Rows(base, count, links, count), p).Some?
    ensures p.intf in EthNames(2 * links)
  {
    var ls := Rows(base, count, links, count);
    var k := Owner(ls, p).value;
    var i', j := RingLinkAt(base, count, links, count, k);
    assert p.intf == EthName(j) || p.intf == EthName(j + links);
  }

  /**
   Loading the ring gives every node exactly the interfaces eth1 to eth(2*links), each the end of exactly one
   link.
   */
  lemma RingInterfaces(base: string, count: nat, links: nat, i: nat)
    requires count > 1 && i < count
    ensures ConnectAll(RingNodes(base, count), Rows(base, count, links, count)).1.None?
    ensures var loaded := ConnectAll(RingNodes(base, count), Rows(base, count, links, count)).0;
            && NodeName(base, i) in loaded
            && loaded[NodeName(base, i)].Keys == EthNames(2 * links)
            && |loaded[NodeName(base, i)].Keys| == 2 * links
  {
    var nodes, ls, n := RingNodes(base, count), Rows(base, count, links, count), NodeName(base, i);
    RingNodesAre(base, count);
    RingIsWirable(base, count, links);
    LoadSucceedsExactlyWhenWirable(nodes, ls);
    var loaded := ConnectAll(nodes, ls).0;
    forall k | k in EthNames(2 * links) ensures k in loaded[n] {
      var e :| 1 <= e <= 2 * links && k == EthName(e);
      PortUsed(base, count, links, i, e);
      assert Lookup(loaded, Port(n, k)) == Expected(nodes, ls, Port(n, k));
    }
    forall k | k in loaded[n] ensures k in EthNames(2 * links) {
      assert Lookup(loaded, Port(n, k)) == Expected(nodes, ls, Port(n, k));
      UsedPort(base, count, links, i, Port(n, k));
    }
    assert loaded[n].Keys == EthNames(2 * links);
    EthNamesSize(2 * links);
  }

  /**
   Whatever its nodes call their interfaces, a ring gets through to resolved links if and only if no link has just
   one end renamed to the management interface.
   */
  lemma RingSucceedsExactlyWhen(base: string, count: nat, links: nat, w: Wiring, backToBack: set<string>)
    requires count > 1 && Attempted(w)
    requires w.nodes == RingNodes(base, count) && w.links == Rows(base, count, links, count)
    ensures Succeeds(w, backToBack)
            <==> forall o :: 0 <= o < |w.links| ==> (PortEmitted(w, w.links[o].a) <==> PortEmitted(w, w.links[o].z))
  {
    RingNodesAre(base, count);
    RingIsWirable(base, count, links);
    forall o | 0 <= o < |w.links|
      ensures w.links[o].a.node != w.links[o].z.node && w.links[o].a.intf != "" && w.links[o].z.intf != ""
    {
      var i, j := RingLinkAt(base, count, links, count, o);
      assert LoopSupported(w.links[o], {});
    }
    assert LoopsSupported(w, backToBack) && AllLinked(w) && AllNamed(w);
    SucceedsExactlyWhen(w, backToBack);
  }

  /** In particular it does so if no interface but the management one gets the name of the management one. */
  lemma RingResolves(base: string, count: nat, links: nat, w: Wiring, backToBack: set<string>)
    requires count > 1 && Attempted(w)
    requires w.nodes == RingNodes(base, count) && w.links == Rows(base, count, links, count)
    requires OnlyManagement(w)
    ensures Succeeds(w, backToBack)
  {
    RingSucceedsExactlyWhen(base, count, links, w, backToBack);
    RingIsWirable(base, count, links);
    RingNodesAre(base, count);
    LoadSucceedsExactlyWhenWirable(w.nodes, w.links);
    forall o | 0 <= o < |w.links| ensures PortEmitted(w, w.links[o].a) && PortEmitted(w, w.links[o].z) {
      RingPortsEmitted(base, count, links, w, o);
    }
  }

  ghost predicate OnlyManagement(w: Wiring) {
    forall n, k :: n in w.to && k in w.to[n] && w.to[n][k] == MANAGEMENT ==> k == MANAGEMENT
  }

  lemma RingPortsEmitted(base: string, count: nat, links: nat, w: Wiring, o: nat)
    requires count > 1 && Attempted(w) && Wired(w.nodes, w.links, w.loaded) && OnlyManagement(w)
    requires w.links == Rows(base, count, links, count) && o < |w.links|
    ensures PortEmitted(w, w.links[o].a) && PortEmitted(w, w.links[o].z)
  {
    var i, j := RingLinkAt(base, count, links, count, o);
    EndHasKey(w, o, w.links[o].a);
    EndHasKey(w, o, w.links[o].z);
    NotManagement(j);
    NotManagement(j + links);
  }

  lemma EndHasKey(w: Wiring, o: nat, p: Port)
    requires Attempted(w) && Wired(w.nodes, w.links, w.loaded) && o < |w.links| && p in w.links[o].Ports()
    ensures Key(w, p).Some?
  {
    assert Owner(w.links, p).Some?;
    assert Lookup(w.loaded, p) == Expected(w.nodes, w.links, p);
    NewKey(w, p);
  }

  lemma NotManagement(e: nat)
    requires e > 0
    ensures EthName(e) != MANAGEMENT
  {
    assert Decimal(0) == "0";
    assert EthName(0) == MANAGEMENT;
    if EthName(e) == EthName(0) {
      NumberedInjective("eth", e, 0);
    }
  }
}
