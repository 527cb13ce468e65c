/**
 From interfaces to meshnet links (topo/node/node.go `GetNodeLinks`) and the in-place resolution of
 peers by UID (topo/topo.go `setLinkPeer`, `topologySpecs`).
 */
module TopologySpecs {
  import opened Wrappers
  import opened TopologyLoad

  const MANAGEMENT: string := "eth0"

  /** A meshnet link; before resolution `peerPod` names the peer node. */
  datatype MeshLink = MeshLink(uid: int, localIntf: string, peerIntf: string, peerPod: string, mtu: int)

  /** A topology resource: the links of one pod. */
  datatype Spec = Spec(name: string, links: seq<MeshLink>)

  /** The specs of each node. */
  type Table = map<string, seq<Spec>>

  // ---- GetNodeLinks -------------------------------------------------------

  function LinkOf(key: string, i: Interface): MeshLink {
    MeshLink(i.uid, key, i.peerIntName, i.peerName, i.mtu)
  }

  predicate HasPeer(i: Interface) {
    i.peerIntName != "" && i.peerName != ""
  }

  /** The links list every interface of `keys` exactly once. */
  ghost predicate Lists(interfaces: map<string, Interface>, keys: set<string>, links: seq<MeshLink>) {
    && (forall i :: 0 <= i < |links| ==>
          links[i].localIntf in keys && links[i].localIntf in interfaces
          && links[i] == LinkOf(links[i].localIntf, interfaces[links[i].localIntf]))
    && (forall i, j :: 0 <= i < j < |links| ==> links[i].localIntf != links[j].localIntf)
    && (forall k :: k in keys ==> exists i :: 0 <= i < |links| && links[i].localIntf == k)
  }

  /** The keys of the interfaces that are emitted. */
  function Emitted(interfaces: map<string, Interface>): set<string> {
    interfaces.Keys - {MANAGEMENT}
  }

  /** The interfaces are visited in any order; the management interface is skipped, an unconnected one is an error. */
  method GetNodeLinks(interfaces: map<string, Interface>) returns (r: Option<seq<MeshLink>>)
    ensures r.Some? <==> forall k :: k in Emitted(interfaces) ==> HasPeer(interfaces[k])
    ensures r.Some? ==> Lists(interfaces, Emitted(interfaces), r.value)
  {
    var links := [];
    var all, done := interfaces.Keys, {};
    while all - done != {}
      invariant done <= all
      invariant Lists(interfaces, done - {MANAGEMENT}, links)
      invariant forall k :: k in done - {MANAGEMENT} ==> HasPeer(interfaces[k])
      decreases all - done
    {
      var k :| k in all - done;
      var ifc := interfaces[k];
      if k == MANAGEMENT {
        assert done + {k} - {MANAGEMENT} == done - {MANAGEMENT};
      } else {
        if ifc.peerIntName == "" {
          return None;
        }
        if ifc.peerName == "" {
          return None;
        }
        ListsNext(interfaces, done - {MANAGEMENT}, links, k);
        assert done + {k} - {MANAGEMENT} == done - {MANAGEMENT} + {k};
        links := links + [LinkOf(k, ifc)];
      }
      done := done + {k};
    }
    assert forall k :: k in all ==> k in done || k in all - done;
    assert done == all;
    r := Some(links);
  }

  /** Every listed link is that of one interface: its key, its UID, its peer and its MTU. */
  lemma LinksShowInterfaces(interfaces: map<string, Interface>, links: seq<MeshLink>, k: string) returns (i: nat)
    requires Lists(interfaces, Emitted(interfaces), links) && k in interfaces && k != "eth0"
    ensures i < |links| && links[i].localIntf == k && forall j :: 0 <= j < |links| && links[j].localIntf == k ==> j == i
    ensures links[i].uid == interfaces[k].uid && links[i].mtu == interfaces[k].mtu
    ensures links[i].peerPod == interfaces[k].peerName && links[i].peerIntf == interfaces[k].peerIntName
    ensures forall j :: 0 <= j < |links| ==> links[j].localIntf in interfaces && links[j].localIntf != "eth0"
  {
    assert k in Emitted(interfaces);
    i :| 0 <= i < |links| && links[i].localIntf == k;
  }

  lemma ListsNext(interfaces: map<string, Interface>, keys: set<string>, links: seq<MeshLink>, k: string)
    requires Lists(interfaces, keys, links) && k in interfaces && k !in keys
    ensures Lists(interfaces, keys + {k}, links + [LinkOf(k, interfaces[k])])
  {
    var links' := links + [LinkOf(k, interfaces[k])];
    forall key | key in keys + {k} ensures exists i :: 0 <= i < |links'| && links'[i].localIntf == key {
      if key == k {
        assert links'[|links|].localIntf == k;
      } else {
        var i :| 0 <= i < |links| && links[i].localIntf == key;
        assert links'[i].localIntf == key;
      }
    }
  }

  // ---- Resolution, all links at once --------------------------------------

  /** Does the link `other` of the peer node match `link` of node `node`? The same interface does not. */
  predicate Matches(node: string, link: MeshLink, other: MeshLink) {
    other.uid == link.uid && !(node == link.peerPod && other.localIntf == link.localIntf)
  }

  /** The first link of `links`, from position `i` on, that matches. */
  function FirstIn(node: string, link: MeshLink, links: seq<MeshLink>, i: nat): (r: Option<nat>)
    requires i <= |links|
    ensures r.Some? ==> i <= r.value < |links| && Matches(node, link, links[r.value])
    ensures r.None? ==> forall j :: i <= j < |links| ==> !Matches(node, link, links[j])
    decreases |links| - i
  {
    if i == |links| then None
    else if Matches(node, link, links[i]) then Some(i)
    else FirstIn(node, link, links, i + 1)
  }

  /** The link with its peer found among the specs from position `i` on. */
  function Resolve(node: string, link: MeshLink, specs: seq<Spec>, i: nat): (r: Option<MeshLink>)
    requires i <= |specs|
    ensures r.None? <==> forall k :: i <= k < |specs| ==> FirstIn(node, link, specs[k].links, 0).None?
    decreases |specs| - i
  {
    if i == |specs| then None
    else
      var j := FirstIn(node, link, specs[i].links, 0);
      if j.Some? then Some(link.(peerPod := specs[i].name, peerIntf := specs[i].links[j.value].localIntf))
      else Resolve(node, link, specs, i + 1)
  }

  function ResolveIn(t: Table, node: string, link: MeshLink): Option<MeshLink> {
    if link.peerPod in t then Resolve(node, link, t[link.peerPod], 0) else None
  }

  ghost predicate AllResolve(t: Table) {
    forall n, i, j :: n in t && 0 <= i < |t[n]| && 0 <= j < |t[n][i].links| ==> ResolveIn(t, n, t[n][i].links[j]).Some?
  }

  // ---- Resolution in place ------------------------------------------------

  method SetLinkPeer(node: string, link: MeshLink, peerSpecs: seq<Spec>) returns (r: Option<MeshLink>)
    ensures r == Resolve(node, link, peerSpecs, 0)
  {
    for i := 0 to |peerSpecs|
      invariant Resolve(node, link, peerSpecs, 0) == Resolve(node, link, peerSpecs, i)
    {
      var links := peerSpecs[i].links;
      for j := 0 to |links|
        invariant FirstIn(node, link, links, 0) == FirstIn(node, link, links, j)
      {
        var peerLink := links[j];
        if peerLink.uid == link.uid && !(node == link.peerPod && peerLink.localIntf == link.localIntf) {
          return Some(link.(peerPod := peerSpecs[i].name, peerIntf := peerLink.localIntf));
        }
      }
    }
    r := None;
  }

  /** What resolution reads of the other links never changes: names, UIDs and local interfaces. */
  predicate SameSpec(a: Spec, b: Spec) {
    && a.name == b.name && |a.links| == |b.links|
    && forall j :: 0 <= j < |a.links| ==> a.links[j].uid == b.links[j].uid && a.links[j].localIntf == b.links[j].localIntf
  }

  predicate SameSpecs(a: seq<Spec>, b: seq<Spec>) {
    |a| == |b| && forall i :: 0 <= i < |a| ==> SameSpec(a[i], b[i])
  }

  lemma {:induction false} FirstInFrame(node: string, link: MeshLink, a: Spec, b: Spec, i: nat)
    requires SameSpec(a, b) && i <= |a.links|
    ensures FirstIn(node, link, a.links, i) == FirstIn(node, link, b.links, i)
    decreases |a.links| - i
  {
    if i < |a.links| {
      FirstInFrame(node, link, a, b, i + 1);
    }
  }

  lemma {:induction false} ResolveFrame(node: string, link: MeshLink, a: seq<Spec>, b: seq<Spec>, i: nat)
    requires SameSpecs(a, b) && i <= |a|
    ensures Resolve(node, link, a, i) == Resolve(node, link, b, i)
    decreases |a| - i
  {
    if i < |a| {
      FirstInFrame(node, link, a[i], b[i], 0);
      ResolveFrame(node, link, a, b, i + 1);
    }
  }

  /** Is link j of spec i of `n` resolved when `done` nodes are, and the first `ci`, `cj` of node `cur`? */
  predicate Visited(done: set<string>, cur: string, ci: nat, cj: nat, n: string, i: nat, j: nat) {
    n in done || (n == cur && (i < ci || (i == ci && j < cj)))
  }

  /** `t` is `t0` with exactly the visited links resolved as if all others were untouched. */
  ghost predicate Partly(t0: Table, t: Table, done: set<string>, cur: string, ci: nat, cj: nat) {
    && t.Keys == t0.Keys
    && (forall n :: n in t0 ==> SameSpecs(t[n], t0[n]))
    && (forall n, i, j :: n in t0 && 0 <= i < |t0[n]| && 0 <= j < |t0[n][i].links| ==>
          if Visited(done, cur, ci, cj, n, i, j)
          then ResolveIn(t0, n, t0[n][i].links[j]) == Some(t[n][i].links[j])
          else t[n][i].links[j] == t0[n][i].links[j])
  }

  function SetLink(t: Table, n: string, i: nat, j: nat, link: MeshLink): Table
    requires n in t && i < |t[n]| && j < |t[n][i].links|
  {
    t[n := t[n][i := t[n][i].(links := t[n][i].links[j := link])]]
  }

  /** Overwriting one link with its resolution leaves every other resolution what it was. */
  lemma VisitLink(t0: Table, t: Table, done: set<string>, n: string, i: nat, j: nat, link: MeshLink)
    requires Partly(t0, t, done, n, i, j) && n in t0 && n !in done
    requires i < |t0[n]| && j < |t0[n][i].links|
    requires ResolveIn(t0, n, t0[n][i].links[j]) == Some(link)
    ensures Partly(t0, SetLink(t, n, i, j, link), done, n, i, j + 1)
  {
    ResolveKeepsIdentity(t0, n, t0[n][i].links[j]);
    var t' := SetLink(t, n, i, j, link);
    assert SameSpec(t'[n][i], t0[n][i]);
    forall m, k, l | m in t0 && 0 <= k < |t0[m]| && 0 <= l < |t0[m][k].links|
      ensures if Visited(done, n, i, j + 1, m, k, l)
              then ResolveIn(t0, m, t0[m][k].links[l]) == Some(t'[m][k].links[l])
              else t'[m][k].links[l] == t0[m][k].links[l]
    {
      if m == n && k == i && l == j {
        assert t'[m][k].links[l] == link;
      } else {
        assert t'[m][k].links[l] == t[m][k].links[l];
      }
    }
  }

  lemma ResolveKeepsIdentity(t: Table, node: string, link: MeshLink)
    ensures var r := ResolveIn(t, node, link);
            r.Some? ==> r.value.uid == link.uid && r.value.localIntf == link.localIntf && r.value.mtu == link.mtu
  {
    if link.peerPod in t {
      ResolveIdentity(node, link, t[link.peerPod], 0);
    }
  }

  lemma {:induction false} ResolveIdentity(node: string, link: MeshLink, specs: seq<Spec>, i: nat)
    requires i <= |specs|
    ensures var r := Resolve(node, link, specs, i);
            r.Some? ==> r.value == link.(peerPod := r.value.peerPod, peerIntf := r.value.peerIntf)
    decreases |specs| - i
  {
    if i < |specs| {
      ResolveIdentity(node, link, specs, i + 1);
    }
  }

  /** The links of one spec, in order. */
  method ResolveSpec(t0: Table, t: Table, ghost done: set<string>, n: string, i: nat)
    returns (t': Table, ok: bool)
    requires Partly(t0, t, done, n, i, 0) && n in t0 && n !in done && i < |t0[n]|
    ensures ok ==> Partly(t0, t', done, n, i + 1, 0)
    ensures ok ==> forall m :: m in t0 && m != n ==> t'[m] == t[m]
    ensures !ok ==> exists j :: 0 <= j < |t0[n][i].links| && ResolveIn(t0, n, t0[n][i].links[j]).None?
  {
    t' := t;
    for l := 0 to |t[n][i].links|
      invariant Partly(t0, t', done, n, i, l)
      invariant forall m :: m in t0 && m != n ==> t'[m] == t[m]
    {
      var link := t'[n][i].links[l];
      assert link == t0[n][i].links[l];
      if link.peerPod !in t' {
        assert ResolveIn(t0, n, t0[n][i].links[l]).None?;
        return t', false;
      }
      var r := SetLinkPeer(n, link, t'[link.peerPod]);
      ResolveFrame(n, link, t'[link.peerPod], t0[link.peerPod], 0);
      assert r == ResolveIn(t0, n, t0[n][i].links[l]);
      if r.None? {
        return t', false;
      }
      VisitLink(t0, t', done, n, i, l, r.value);
      t' := SetLink(t', n, i, l, r.value);
    }
    assert Partly(t0, t', done, n, i + 1, 0) by {
      NextSpec(t0, t', done, n, i, |t[n][i].links|);
    }
    ok := true;
  }

  lemma NextSpec(t0: Table, t: Table, done: set<string>, n: string, i: nat, j: nat)
    requires Partly(t0, t, done, n, i, j) && n in t0 && i < |t0[n]| && j == |t0[n][i].links|
    ensures Partly(t0, t, done, n, i + 1, 0)
  {
    forall m, k, l | m in t0 && 0 <= k < |t0[m]| && 0 <= l < |t0[m][k].links|
      ensures Visited(done, n, i + 1, 0, m, k, l) <==> Visited(done, n, i, j, m, k, l)
    {
    }
  }

  lemma NextNode(t0: Table, t: Table, done: set<string>, n: string, next: string)
    requires n in t0 && Partly(t0, t, done, n, |t0[n]|, 0)
    ensures Partly(t0, t, done + {n}, next, 0, 0)
  {
    forall m, k, l | m in t0 && 0 <= k < |t0[m]| && 0 <= l < |t0[m][k].links|
      ensures Visited(done + {n}, next, 0, 0, m, k, l) <==> Visited(done, n, |t0[n]|, 0, m, k, l)
    {
    }
  }

  // ---- topologySpecs ------------------------------------------------------

  /** Every link of `s` resolved against the original table. */
  function ResolvedSpec(t: Table, n: string, s: Spec): Spec
    requires forall j :: 0 <= j < |s.links| ==> ResolveIn(t, n, s.links[j]).Some?
  {
    s.(links := seq(|s.links|, j requires 0 <= j < |s.links| => ResolveIn(t, n, s.links[j]).value))
  }

  /** All links resolved simultaneously from the originals. */
  ghost function ResolvedAll(t: Table): Table
    requires AllResolve(t)
  {
    map n | n in t :: seq(|t[n]|, i requires 0 <= i < |t[n]| => ResolvedSpec(t, n, t[n][i]))
  }

  /** The specs of the nodes of `order`, one node after the other. */
  function Gather(t: Table, order: seq<string>): seq<Spec>
    requires forall n :: n in order ==> n in t
  {
    if order == [] then [] else Gather(t, order[..|order| - 1]) + t[order[|order| - 1]]
  }

  lemma {:induction false} GatherFrame(t: Table, t': Table, order: seq<string>)
    requires forall n :: n in order ==> n in t && n in t' && t[n] == t'[n]
    ensures Gather(t, order) == Gather(t', order)
    decreases |order|
  {
    if order != [] {
      GatherFrame(t, t', order[..|order| - 1]);
    }
  }

  lemma GatherNext(t: Table, order: seq<string>, n: string)
    requires n in t && forall m :: m in order ==> m in t
    ensures Gather(t, order + [n]) == Gather(t, order) + t[n]
  {
    assert (order + [n])[..|order|] == order;
  }

  /** The specs of one node, in order. */
  method ResolveNode(t0: Table, t: Table, ghost done: set<string>, n: string) returns (t': Table, ok: bool)
    requires Partly(t0, t, done, n, 0, 0) && n in t0 && n !in done
    ensures ok ==> Partly(t0, t', done + {n}, n, 0, 0)
    ensures ok ==> forall m :: m in t0 && m != n ==> t'[m] == t[m]
    ensures !ok ==> !AllResolve(t0)
  {
    t' := t;
    for i := 0 to |t[n]|
      invariant Partly(t0, t', done, n, i, 0)
      invariant forall m :: m in t0 && m != n ==> t'[m] == t[m]
    {
      t', ok := ResolveSpec(t0, t', done, n, i);
      if !ok {
        return;
      }
    }
    NextNode(t0, t', done, n, n);
    ok := true;
  }

  /** When everything is visited, the table rewritten in place is the one resolved all at once. */
  lemma WhollyIsSimultaneous(t0: Table, t: Table, cur: string)
    requires Partly(t0, t, t0.Keys, cur, 0, 0)
    ensures AllResolve(t0) && t == ResolvedAll(t0)
  {
    forall n, i, j | n in t0 && 0 <= i < |t0[n]| && 0 <= j < |t0[n][i].links|
      ensures ResolveIn(t0, n, t0[n][i].links[j]) == Some(t[n][i].links[j])
    {
      assert Visited(t0.Keys, cur, 0, 0, n, i, j);
    }
    assert AllResolve(t0);
    var all := ResolvedAll(t0);
    forall n | n in t0 ensures t[n] == all[n] {
      assert SameSpecs(t[n], t0[n]);
      forall i | 0 <= i < |t[n]| ensures t[n][i] == all[n][i] {
        assert t[n][i].links == all[n][i].links;
      }
    }
  }

  /**
   Whatever order the nodes are visited in, rewriting the links in place gives what resolving all of them
   simultaneously from the originals gives; it fails exactly if some link has no peer.
   */
  method TopologySpecs(specs: Table) returns (r: Option<seq<Spec>>, order: seq<string>)
    ensures r.Some? <==> AllResolve(specs)
    ensures r.Some? ==> (forall n :: n in order <==> n in specs)
    ensures r.Some? ==> forall i, j :: 0 <= i < j < |order| ==> order[i] != order[j]
    ensures r.Some? ==> r.value == Gather(ResolvedAll(specs), order)
  {
    var t, topos := specs, [];
    order := [];
    var all, done := specs.Keys, {};
    while all - done != {}
      invariant done <= all && t.Keys == all
      invariant forall cur :: Partly(specs, t, done, cur, 0, 0)
      invariant forall n :: n in order <==> n in done
      invariant forall i, j :: 0 <= i < j < |order| ==> order[i] != order[j]
      invariant topos == Gather(t, order)
      decreases all - done
    {
      var n :| n in all - done;
      var before := t;
      var ok;
      t, ok := ResolveNode(specs, t, done, n);
      if !ok {
        return None, order;
      }
      GatherFrame(before, t, order);
      GatherNext(t, order, n);
      forall cur ensures Partly(specs, t, done + {n}, cur, 0, 0) {
        AnyCursor(specs, t, done + {n}, n, cur);
      }
      topos := topos + t[n];
      order := order + [n];
      done := done + {n};
    }
    assert forall k :: k in all ==> k in done || k in all - done;
    assert done == all;
    WhollyIsSimultaneous(specs, t, "");
    r := Some(topos);
  }

  lemma AnyCursor(t0: Table, t: Table, done: set<string>, cur: string, next: string)
    requires Partly(t0, t, done, cur, 0, 0)
    ensures Partly(t0, t, done, next, 0, 0)
  {
    forall m, k, l | m in t0 && 0 <= k < |t0[m]| && 0 <= l < |t0[m][k].links|
      ensures Visited(done, next, 0, 0, m, k, l) <==> Visited(done, cur, 0, 0, m, k, l)
    {
    }
  }
}
