/**
 `CreateService` (topo/node/node.go): the ports of a node become at most three Kubernetes Services, one per
 type, plus a proxy for ports that ask for external IPv6; an error part-way undoes what was created.
 */
module NodeServices {
  import opened Wrappers

  datatype ProtoType = ProtoUnknown | ProtoClusterIp | ProtoNodePort | ProtoLoadBalancer | ProtoOther(n: int)

  datatype ServiceType = LoadBalancer | NodePort | ClusterIp

  /** A service of the node's proto, kept under its port. */
  datatype Service = Service(name: string, inside: nat, nodePort: nat, t: ProtoType, externalIpv6: bool)

  datatype ServicePort = ServicePort(port: nat, nodePort: nat, targetPort: nat, name: string)

  datatype K8sService = K8sService(t: ServiceType, ports: seq<ServicePort>)

  datatype CreateError = NodePortOutOfRange(k: nat) | PortOutOfRange(k: nat) | CreateFailed(name: string) | ProxyFailed

  const MAX_PORT: nat := 65535

  /** What the API server answers: which Services it will not create or delete, which node ports it assigns, whether it takes the proxy. */
  datatype World = World(refused: set<string>, undeletable: set<string>, nodePorts: map<nat, nat>, proxyFails: bool)

  function K8sServiceType(t: ProtoType): ServiceType {
    match t
    case ProtoNodePort => NodePort
    case ProtoClusterIp => ClusterIp
    case _ => LoadBalancer
  }

  function ServiceName(node: string, t: ServiceType): string {
    match t
    case NodePort => "service-" + node + "-nodeport"
    case ClusterIp => "service-" + node + "-clusterip"
    case LoadBalancer => "service-" + node
  }

  const TYPE_ORDER: seq<ServiceType> := [LoadBalancer, NodePort, ClusterIp]

  // ---- What is to be created ----------------------------------------------

  /** The keys in ascending order. */
  ghost predicate Ascending(keys: seq<nat>) {
    forall i, j :: 0 <= i < j < |keys| ==> keys[i] < keys[j]
  }

  function PortOf(ports: map<nat, Service>, k: nat): ServicePort
    requires k in ports
  {
    ServicePort(k, ports[k].nodePort, ports[k].inside, ports[k].name)
  }

  /** The ports of type t among the first n keys, in the order of the keys. */
  function Group(ports: map<nat, Service>, keys: seq<nat>, t: ServiceType, n: nat): seq<ServicePort>
    requires n <= |keys| && forall k :: k in keys ==> k in ports
  {
    if n == 0 then []
    else
      var k := keys[n - 1];
      Group(ports, keys, t, n - 1) + if K8sServiceType(ports[k].t) == t then [PortOf(ports, k)] else []
  }

  predicate InRange(ports: map<nat, Service>) {
    forall k :: k in ports ==> k <= MAX_PORT && ports[k].nodePort <= MAX_PORT
  }

  /** The Service as the API server stores it: a NodePort service gets a node port for each port without one. */
  function Stored(w: World, s: K8sService): K8sService {
    s.(ports := seq(|s.ports|, i requires 0 <= i < |s.ports| =>
      var p := s.ports[i];
      if s.t == NodePort && p.nodePort == 0 && p.port in w.nodePorts then p.(nodePort := w.nodePorts[p.port]) else p))
  }

  /** The Services of the first i types. */
  function Created(node: string, ports: map<nat, Service>, keys: seq<nat>, w: World, i: nat): map<string, K8sService>
    requires i <= |TYPE_ORDER| && forall k :: k in keys ==> k in ports
  {
    if i == 0 then map[]
    else
      var t := TYPE_ORDER[i - 1];
      var group := Group(ports, keys, t, |keys|);
      var before := Created(node, ports, keys, w, i - 1);
      if group == [] then before else before[ServiceName(node, t) := Stored(w, K8sService(t, group))]
  }

  /** What an error says: the least port out of range, a Service that was not taken, or that the proxy was not. */
  ghost predicate Explains(e: CreateError, before: map<string, K8sService>, ports: map<nat, Service>, w: World) {
    match e
    case CreateFailed(name) => name in before || name in w.refused
    case ProxyFailed => w.proxyFails
    case _ => BlamesLeast(e, ports)
  }

  /** The error names the least port that is out of range or asks for a node port that is. */
  ghost predicate BlamesLeast(e: CreateError, ports: map<nat, Service>) {
    && (e.NodePortOutOfRange? || e.PortOutOfRange?) && e.k in ports
    && (if e.NodePortOutOfRange? then ports[e.k].nodePort > 65535 else ports[e.k].nodePort <= 65535 && e.k > 65535)
    && forall j :: j in ports && j < e.k ==> j <= 65535 && ports[j].nodePort <= 65535
  }

  /** With the keys ascending, a port below the n-th key is one of the first n. */
  lemma BelowIsBefore(keys: seq<nat>, n: nat, j: nat)
    requires Ascending(keys) && n < |keys| && j in keys && j < keys[n]
    ensures exists i :: 0 <= i < n && keys[i] == j
  {
    var i :| 0 <= i < |keys| && keys[i] == j;
    assert i < n;
  }

  lemma LeastIsBlamed(ports: map<nat, Service>, keys: seq<nat>, n: nat, e: CreateError)
    requires (forall k :: k in keys <==> k in ports) && Ascending(keys) && n < |keys|
    requires forall i :: 0 <= i < n ==> keys[i] <= 65535 && ports[keys[i]].nodePort <= 65535
    requires e == NodePortOutOfRange(keys[n]) || e == PortOutOfRange(keys[n])
    requires if e.NodePortOutOfRange? then ports[e.k].nodePort > 65535 else ports[e.k].nodePort <= 65535 && e.k > 65535
    ensures BlamesLeast(e, ports)
  {
    forall j | j in ports && j < e.k ensures j <= 65535 && ports[j].nodePort <= 65535 {
      BelowIsBefore(keys, n, j);
    }
  }

  // ---- The code -----------------------------------------------------------

  method SortedKeys(ports: map<nat, Service>) returns (keys: seq<nat>)
    ensures Ascending(keys)
    ensures forall k :: k in keys <==> k in ports
  {
    keys := [];
    var left := ports.Keys;
    while left != {}
      invariant left <= ports.Keys
      invariant forall k :: k in keys <==> k in ports.Keys - left
      invariant Ascending(keys)
      invariant forall i, k :: 0 <= i < |keys| && k in left ==> keys[i] < k
      decreases left
    {
      var least := Least(left);
      keys := keys + [least];
      left := left - {least};
    }
  }

  method Least(s: set<nat>) returns (least: nat)
    requires s != {}
    ensures least in s && forall k :: k in s ==> least <= k
  {
    least :| least in s;
    var seen := {least};
    while s - seen != {}
      invariant least in seen && seen <= s
      invariant forall k :: k in seen ==> least <= k
      decreases s - seen
    {
      var k :| k in s - seen;
      if k < least {
        least := k;
      }
      seen := seen + {k};
    }
    assert forall k :: k in s ==> k in seen || k in s - seen;
  }

  method GroupPorts(ports: map<nat, Service>, keys: seq<nat>)
    returns (groups: map<ServiceType, seq<ServicePort>>, err: Option<CreateError>)
    requires forall k :: k in keys <==> k in ports
    ensures err.None? <==> InRange(ports)
    ensures err.None? ==> forall t :: t in groups && groups[t] == Group(ports, keys, t, |keys|)
    ensures err.Some? && Ascending(keys) ==> BlamesLeast(err.value, ports)
  {
    groups := map[LoadBalancer := [], NodePort := [], ClusterIp := []];
    forall t: ServiceType ensures t in groups && groups[t] == [] {
      match t
      case LoadBalancer =>
      case NodePort =>
      case ClusterIp =>
    }
    for n := 0 to |keys|
      invariant forall i :: 0 <= i < n ==> keys[i] <= MAX_PORT && ports[keys[i]].nodePort <= MAX_PORT
      invariant forall t :: t in groups && groups[t] == Group(ports, keys, t, n)
    {
      var k := keys[n];
      var v := ports[k];
      if v.nodePort > MAX_PORT {
        err := Some(NodePortOutOfRange(k));
        if Ascending(keys) {
          LeastIsBlamed(ports, keys, n, err.value);
        }
        return;
      }
      if k > MAX_PORT {
        err := Some(PortOutOfRange(k));
        if Ascending(keys) {
          LeastIsBlamed(ports, keys, n, err.value);
        }
        return;
      }
      var st := K8sServiceType(v.t);
      groups := groups[st := groups[st] + [ServicePort(k, v.nodePort, v.inside, v.name)]];
    }
    err := None;
  }

  /** The three names of a node's Services are different. */
  lemma NamesDiffer(node: string, t: ServiceType, t': ServiceType)
    requires t != t'
    ensures ServiceName(node, t) != ServiceName(node, t')
  {
    assert |ServiceName(node, LoadBalancer)| == 8 + |node|;
    assert |ServiceName(node, NodePort)| == 17 + |node|;
    assert |ServiceName(node, ClusterIp)| == 18 + |node|;
  }

  lemma {:induction false} CreatedNames(node: string, ports: map<nat, Service>, keys: seq<nat>, w: World, i: nat)
    requires i <= |TYPE_ORDER| && forall k :: k in keys ==> k in ports
    ensures forall n :: n in Created(node, ports, keys, w, i) <==>
              exists j :: 0 <= j < i && n == ServiceName(node, TYPE_ORDER[j]) && Group(ports, keys, TYPE_ORDER[j], |keys|) != []
    decreases i
  {
    if i > 0 {
      CreatedNames(node, ports, keys, w, i - 1);
    }
  }

  /** The name under which type number i is created is not in use by an earlier type. */
  lemma NameIsNew(node: string, ports: map<nat, Service>, keys: seq<nat>, w: World, i: nat)
    requires i < |TYPE_ORDER| && forall k :: k in keys ==> k in ports
    ensures ServiceName(node, TYPE_ORDER[i]) !in Created(node, ports, keys, w, i)
  {
    CreatedNames(node, ports, keys, w, i);
    forall j | 0 <= j < i ensures ServiceName(node, TYPE_ORDER[j]) != ServiceName(node, TYPE_ORDER[i]) {
      NamesDiffer(node, TYPE_ORDER[j], TYPE_ORDER[i]);
    }
  }

  lemma MergeUpdate(a: map<string, K8sService>, b: map<string, K8sService>, n: string, s: K8sService)
    ensures (a + b)[n := s] == a + b[n := s]
  {
  }

  /** The API server takes every Service to be created for the first n types. */
  ghost predicate AcceptedUpTo(before: map<string, K8sService>, node: string, ports: map<nat, Service>, keys: seq<nat>,
                               w: World, n: nat)
    requires n <= |TYPE_ORDER| && forall k :: k in keys ==> k in ports
  {
    forall i :: 0 <= i < n && Group(ports, keys, TYPE_ORDER[i], |keys|) != []
                ==> ServiceName(node, TYPE_ORDER[i]) !in before && ServiceName(node, TYPE_ORDER[i]) !in w.refused
  }

  ghost predicate Accepted(before: map<string, K8sService>, node: string, ports: map<nat, Service>, keys: seq<nat>, w: World)
    requires forall k :: k in keys ==> k in ports
  {
    AcceptedUpTo(before, node, ports, keys, w, |TYPE_ORDER|)
  }

  /** What the loop has done after the first n types. */
  ghost predicate Progress(before: map<string, K8sService>, now: map<string, K8sService>, created: seq<string>,
                           node: string, ports: map<nat, Service>, keys: seq<nat>, w: World, n: nat)
    requires n <= |TYPE_ORDER| && forall k :: k in keys ==> k in ports
  {
    var made := Created(node, ports, keys, w, n);
    now == before + made && made.Keys !! before.Keys && forall m :: m in created <==> m in made
  }

  lemma ProgressNext(before: map<string, K8sService>, now: map<string, K8sService>, created: seq<string>,
                     node: string, ports: map<nat, Service>, keys: seq<nat>, w: World, n: nat)
    requires n < |TYPE_ORDER| && forall k :: k in keys ==> k in ports
    requires Progress(before, now, created, node, ports, keys, w, n)
    ensures var t := TYPE_ORDER[n];
            var group, name := Group(ports, keys, t, |keys|), ServiceName(node, t);
            && (name in now <==> name in before)
            && (group == [] ==> Progress(before, now, created, node, ports, keys, w, n + 1))
            && (group != [] && name !in before ==>
                  Progress(before, now[name := Stored(w, K8sService(t, group))], created + [name], node, ports, keys, w, n + 1))
  {
    NameIsNew(node, ports, keys, w, n);
    var t := TYPE_ORDER[n];
    MergeUpdate(before, Created(node, ports, keys, w, n), ServiceName(node, t),
                Stored(w, K8sService(t, Group(ports, keys, t, |keys|))));
  }

  class Cluster {
    var services: map<string, K8sService>

    constructor (services: map<string, K8sService>)
      ensures this.services == services
    {
      this.services := services;
    }

    /** A name in use is refused. */
    method Create(name: string, s: K8sService, w: World) returns (stored: Option<K8sService>)
      modifies this
      ensures stored.Some? <==> name !in old(services) && name !in w.refused
      ensures stored.Some? ==> stored.value == Stored(w, s) && services == old(services)[name := stored.value]
      ensures stored.None? ==> services == old(services)
    {
      if name in services || name in w.refused {
        return None;
      }
      stored := Some(Stored(w, s));
      services := services[name := stored.value];
    }

    method Delete(name: string, w: World)
      modifies this
      ensures services == if name in w.undeletable then old(services) else old(services) - {name}
    {
      if name !in w.undeletable {
        services := services - {name};
      }
    }

    /** The creation loop: `created` lists what was created, also when it stops early after `n` types. */
    method CreateAll(node: string, ghost ports: map<nat, Service>, ghost keys: seq<nat>,
                     groups: map<ServiceType, seq<ServicePort>>, w: World)
      returns (created: seq<string>, err: Option<CreateError>, ghost n: nat)
      requires forall k :: k in keys ==> k in ports
      requires forall t :: t in groups && groups[t] == Group(ports, keys, t, |keys|)
      modifies this
      ensures err.None? <==> Accepted(old(services), node, ports, keys, w)
      ensures err.Some? ==> err.value.CreateFailed? && (err.value.name in old(services) || err.value.name in w.refused)
      ensures n <= |TYPE_ORDER| && (err.None? ==> n == |TYPE_ORDER|)
      ensures Progress(old(services), services, created, node, ports, keys, w, n)
    {
      created := [];
      n := 0;
      for i := 0 to |TYPE_ORDER|
        invariant n == i
        invariant Progress(old(services), services, created, node, ports, keys, w, i)
        invariant AcceptedUpTo(old(services), node, ports, keys, w, i)
      {
        var st := TYPE_ORDER[i];
        ProgressNext(old(services), services, created, node, ports, keys, w, i);
        if |groups[st]| > 0 {
          var svcName := ServiceName(node, st);
          var sS := Create(svcName, K8sService(st, groups[st]), w);
          if sS.None? {
            return created, Some(CreateFailed(svcName)), n;
          }
          created := created + [svcName];
        }
        n := n + 1;
      }
      err := None;
    }

    /** The deferred clean-up after an error. */
    method Rollback(created: seq<string>, w: World)
      modifies this
      ensures services == old(services) - ((set n | n in created) - w.undeletable)
    {
      ghost var gone := {};
      for j := 0 to |created|
        invariant forall n :: n in gone <==> n in created[..j]
        invariant services == old(services) - (gone - w.undeletable)
      {
        Delete(created[j], w);
        gone := gone + {created[j]};
      }
      assert created[..|created|] == created;
      assert gone == set n | n in created;
    }

    /** The node ports that need an IPv6 proxy, of the Services just created. */
    method ProxyPorts(ports: map<nat, Service>, created: seq<string>) returns (proxied: seq<nat>)
      requires forall n :: n in created ==> n in services
      ensures forall p :: p in proxied <==> exists n :: n in created && NeedsProxy(ports, services[n], p)
    {
      proxied := [];
      for i := 0 to |created|
        invariant forall p :: p in proxied <==> exists n :: n in created[..i] && NeedsProxy(ports, services[n], p)
      {
        var sS := services[created[i]];
        var more := ProxyPortsOf(ports, sS);
        assert created[..i + 1] == created[..i] + [created[i]];
        proxied := proxied + more;
      }
      assert created[..|created|] == created;
    }

    /** The Services and the proxy, once the ports are grouped. */
    method CreateAndProxy(node: string, ports: map<nat, Service>, ghost keys: seq<nat>,
                          groups: map<ServiceType, seq<ServicePort>>, w: World)
      returns (err: Option<CreateError>, proxied: seq<nat>)
      requires forall k :: k in keys ==> k in ports
      requires forall t :: t in groups && groups[t] == Group(ports, keys, t, |keys|)
      modifies this
      ensures var made := Created(node, ports, keys, w, |TYPE_ORDER|);
              && (err.None? <==> Accepted(old(services), node, ports, keys, w) && (w.proxyFails ==> NothingToProxy(ports, made)))
              && (err.None? ==> services == old(services) + made && ProxiesExactly(ports, made, proxied))
      ensures err.Some? ==> Restored(old(services), services, w) && Explains(err.value, old(services), ports, w)
    {
      ghost var was := services;
      var created;
      ghost var n;
      created, err, n := CreateAll(node, ports, keys, groups, w);
      ghost var made := Created(node, ports, keys, w, n);
      proxied := [];
      if err.Some? {
        Rollback(created, w);
        Undone(was, made, created, w, services);
        return;
      }
      proxied := ProxyPorts(ports, created);
      assert ProxiesExactly(ports, made, proxied) by {
        assert forall m :: m in created ==> services[m] == made[m];
      }
      EmptyProxy(ports, made, proxied);
      if |proxied| > 0 && w.proxyFails {
        err := Some(ProxyFailed);
        Rollback(created, w);
        Undone(was, made, created, w, services);
      }
    }

    /**
     On success the Services planned for the node's ports are added, in the order of `keys`, and those ports are
     proxied that ask for it; on an error the cluster is as before, apart from Services it refused to delete.
     */
    method CreateService(node: string, ports: map<nat, Service>, w: World)
      returns (err: Option<CreateError>, keys: seq<nat>, proxied: seq<nat>)
      modifies this
      ensures Ascending(keys) && (forall k :: k in keys <==> k in ports)
      ensures var made := Created(node, ports, keys, w, |TYPE_ORDER|);
              && (err.None? <==> InRange(ports) && Accepted(old(services), node, ports, keys, w)
                                 && (w.proxyFails ==> NothingToProxy(ports, made)))
              && (err.None? ==> services == old(services) + made && ProxiesExactly(ports, made, proxied))
      ensures err.Some? ==> Restored(old(services), services, w) && Explains(err.value, old(services), ports, w)
    {
      keys, proxied := [], [];
      if |ports| == 0 {
        NothingCreated(node, ports, w, |TYPE_ORDER|);
        return None, keys, proxied;
      }
      keys := SortedKeys(ports);
      var groups;
      groups, err := GroupPorts(ports, keys);
      if err.Some? {
        return;
      }
      err, proxied := CreateAndProxy(node, ports, keys, groups, w);
    }
  }

  lemma {:induction false} NothingCreated(node: string, ports: map<nat, Service>, w: World, i: nat)
    requires i <= |TYPE_ORDER|
    ensures Created(node, ports, [], w, i) == map[]
    decreases i
  {
    if i > 0 {
      NothingCreated(node, ports, w, i - 1);
    }
  }

  lemma EmptyProxy(ports: map<nat, Service>, made: map<string, K8sService>, proxied: seq<nat>)
    requires ProxiesExactly(ports, made, proxied)
    ensures NothingToProxy(ports, made) <==> proxied == []
  {
    if proxied != [] {
      var p := proxied[0];
      assert p in proxied;
    } else {
      forall n, p | n in made ensures !NeedsProxy(ports, made[n], p) {
        assert p !in proxied;
      }
    }
  }

  /** The cluster has what it had, and otherwise only Services it would not delete. */
  ghost predicate Restored(was: map<string, K8sService>, now: map<string, K8sService>, w: World) {
    && (forall n :: n in was ==> n in now && now[n] == was[n])
    && (forall n :: n in now && n !in was ==> n in w.undeletable)
    && (w.undeletable == {} ==> now == was)
  }

  /** The proxied node ports are exactly those of created ports that ask for external IPv6. */
  ghost predicate ProxiesExactly(ports: map<nat, Service>, made: map<string, K8sService>, proxied: seq<nat>) {
    forall p :: p in proxied <==> exists n :: n in made && NeedsProxy(ports, made[n], p)
  }

  ghost predicate NothingToProxy(ports: map<nat, Service>, made: map<string, K8sService>) {
    forall n, p :: n in made ==> !NeedsProxy(ports, made[n], p)
  }

  lemma Undone(was: map<string, K8sService>, made: map<string, K8sService>, created: seq<string>, w: World,
               now: map<string, K8sService>)
    requires made.Keys !! was.Keys && forall m :: m in created <==> m in made
    requires now == (was + made) - ((set n | n in created) - w.undeletable)
    ensures Restored(was, now, w)
  {
  }

  /** p is the node port of a port of `s` that asks for external IPv6. */
  ghost predicate NeedsProxy(ports: map<nat, Service>, s: K8sService, p: nat) {
    exists i :: 0 <= i < |s.ports| && Proxies(ports, s.ports[i]) && s.ports[i].nodePort == p
  }

  predicate Proxies(ports: map<nat, Service>, sp: ServicePort) {
    sp.port in ports && ports[sp.port].externalIpv6 && sp.nodePort > 0
  }

  method ProxyPortsOf(ports: map<nat, Service>, s: K8sService) returns (proxied: seq<nat>)
    ensures forall p :: p in proxied <==> NeedsProxy(ports, s, p)
  {
    proxied := [];
    for i := 0 to |s.ports|
      invariant forall p :: p in proxied <==>
                  exists j :: 0 <= j < i && Proxies(ports, s.ports[j]) && s.ports[j].nodePort == p
    {
      if Proxies(ports, s.ports[i]) {
        proxied := proxied + [s.ports[i].nodePort];
      }
    }
  }

  // ---- Every port exactly once --------------------------------------------

  /** `g` lists ports of type t, as they are in the proto, in ascending order, all below `limit`. */
  ghost predicate SortedGroup(ports: map<nat, Service>, t: ServiceType, g: seq<ServicePort>, limit: nat) {
    && (forall i :: 0 <= i < |g| ==> g[i].port in ports && g[i] == PortOf(ports, g[i].port)
                                     && K8sServiceType(ports[g[i].port].t) == t)
    && (forall i, j :: 0 <= i < j < |g| ==> g[i].port < g[j].port)
    && (forall i :: 0 <= i < |g| ==> g[i].port < limit)
  }

  lemma {:induction false} GroupIsSorted(ports: map<nat, Service>, keys: seq<nat>, t: ServiceType, n: nat, limit: nat)
    requires n <= |keys| && Ascending(keys) && forall k :: k in keys ==> k in ports
    requires forall i :: 0 <= i < n ==> keys[i] < limit
    ensures SortedGroup(ports, t, Group(ports, keys, t, n), limit)
    decreases n
  {
    if n > 0 {
      var before, k := Group(ports, keys, t, n - 1), keys[n - 1];
      GroupIsSorted(ports, keys, t, n - 1, k);
      assert SortedGroup(ports, t, before, k);
      assert k in keys;
      if K8sServiceType(ports[k].t) == t {
        assert SortedGroup(ports, t, before + [PortOf(ports, k)], limit);
      } else {
        assert before + [] == before;
      }
    }
  }

  lemma {:induction false} GroupHas(ports: map<nat, Service>, keys: seq<nat>, n: nat, at: nat) returns (i: nat)
    requires at < n <= |keys| && forall k :: k in keys ==> k in ports
    ensures keys[at] in keys
    ensures var g := Group(ports, keys, K8sServiceType(ports[keys[at]].t), n);
            i < |g| && g[i] == PortOf(ports, keys[at])
    decreases n
  {
    var t := K8sServiceType(ports[keys[at]].t);
    if at == n - 1 {
      i := |Group(ports, keys, t, n - 1)|;
    } else {
      i := GroupHas(ports, keys, n - 1, at);
    }
  }

  /** Type number i has its Service, with its whole group, exactly if the group is not empty. */
  lemma {:induction false} CreatedHolds(node: string, ports: map<nat, Service>, keys: seq<nat>, w: World, n: nat, i: nat)
    requires i < n <= |TYPE_ORDER| && forall k :: k in keys ==> k in ports
    ensures var t := TYPE_ORDER[i];
            var group, made := Group(ports, keys, t, |keys|), Created(node, ports, keys, w, n);
            && (ServiceName(node, t) in made <==> group != [])
            && (group != [] ==> made[ServiceName(node, t)] == Stored(w, K8sService(t, group)))
    decreases n
  {
    if i < n - 1 {
      CreatedHolds(node, ports, keys, w, n - 1, i);
      NamesDiffer(node, TYPE_ORDER[i], TYPE_ORDER[n - 1]);
    } else {
      NameIsNew(node, ports, keys, w, i);
    }
  }

  /** The Service called `name` serves port k at position i. */
  predicate Serves(made: map<string, K8sService>, name: string, i: nat, k: nat) {
    name in made && i < |made[name].ports| && made[name].ports[i].port == k
  }

  /** The group of type t lists port k at position i. */
  predicate Lists(ports: map<nat, Service>, keys: seq<nat>, t: ServiceType, i: nat, k: nat)
    requires forall k :: k in keys ==> k in ports
  {
    i < |Group(ports, keys, t, |keys|)| && Group(ports, keys, t, |keys|)[i].port == k
  }

  lemma ListedOnce(ports: map<nat, Service>, keys: seq<nat>, k: nat) returns (i: nat)
    requires Ascending(keys) && (forall k :: k in keys <==> k in ports) && k in ports
    ensures var t := K8sServiceType(ports[k].t);
            Lists(ports, keys, t, i, k) && forall t', i' :: Lists(ports, keys, t', i', k) ==> t' == t && i' == i
    ensures forall t, a, b :: 0 <= a < b < |Group(ports, keys, t, |keys|)|
                              ==> Group(ports, keys, t, |keys|)[a].port < Group(ports, keys, t, |keys|)[b].port
  {
    assert k in keys;
    var at :| 0 <= at < |keys| && keys[at] == k;
    i := GroupHas(ports, keys, |keys|, at);
    var limit := keys[|keys| - 1] + 1;
    forall t ensures SortedGroup(ports, t, Group(ports, keys, t, |keys|), limit) {
      GroupIsSorted(ports, keys, t, |keys|, limit);
    }
  }

  /** The position of a type in the order of creation. */
  function Number(t: ServiceType): (i: nat)
    ensures i < |TYPE_ORDER| && TYPE_ORDER[i] == t
  {
    match t
    case LoadBalancer => 0
    case NodePort => 1
    case ClusterIp => 2
  }

  /**
   Each service port is in exactly one place of what is created: once in the Service of its mapped type,
   whose ports ascend.
   */
  lemma EachPortOnce(node: string, ports: map<nat, Service>, keys: seq<nat>, w: World, k: nat) returns (i: nat)
    requires Ascending(keys) && (forall k :: k in keys <==> k in ports) && k in ports
    ensures var made := Created(node, ports, keys, w, |TYPE_ORDER|);
            var name := ServiceName(node, K8sServiceType(ports[k].t));
            && Serves(made, name, i, k) && made[name].t == K8sServiceType(ports[k].t)
            && (forall name', i' :: Serves(made, name', i', k) ==> name' == name && i' == i)
            && (forall a, b :: 0 <= a < b < |made[name].ports| ==> made[name].ports[a].port < made[name].ports[b].port)
  {
    var made, t := Created(node, ports, keys, w, |TYPE_ORDER|), K8sServiceType(ports[k].t);
    i := ListedOnce(ports, keys, k);
    CreatedHolds(node, ports, keys, w, |TYPE_ORDER|, Number(t));
    forall name', i' | Serves(made, name', i', k) ensures name' == ServiceName(node, t) && i' == i {
      var t' := ServedIsListed(node, ports, keys, w, name', i', k);
    }
  }

  lemma ServedIsListed(node: string, ports: map<nat, Service>, keys: seq<nat>, w: World, name: string, i: nat, k: nat)
    returns (t: ServiceType)
    requires forall k :: k in keys ==> k in ports
    requires Serves(Created(node, ports, keys, w, |TYPE_ORDER|), name, i, k)
    ensures name == ServiceName(node, t) && Lists(ports, keys, t, i, k)
  {
    CreatedNames(node, ports, keys, w, |TYPE_ORDER|);
    var j :| 0 <= j < |TYPE_ORDER| && name == ServiceName(node, TYPE_ORDER[j]);
    CreatedHolds(node, ports, keys, w, |TYPE_ORDER|, j);
    t := TYPE_ORDER[j];
  }

  // ---- What is created, told from the ports alone -------------------------

  /** The Service that port k belongs to, by the type asked for. */
  function HomeOf(node: string, ports: map<nat, Service>, k: nat): string
    requires k in ports
  {
    "service-" + node
    + if ports[k].t.ProtoNodePort? then "-nodeport" else if ports[k].t.ProtoClusterIp? then "-clusterip" else ""
  }

  /** The node port that port k ends up with: the one asked for, or else the one assigned to a NodePort service. */
  function NodePortOf(ports: map<nat, Service>, w: World, k: nat): nat
    requires k in ports
  {
    if ports[k].nodePort != 0 then ports[k].nodePort
    else if ports[k].t.ProtoNodePort? && k in w.nodePorts then w.nodePorts[k]
    else 0
  }

  lemma HomeIsNamed(node: string, ports: map<nat, Service>, k: nat)
    requires k in ports
    ensures HomeOf(node, ports, k) == ServiceName(node, K8sServiceType(ports[k].t))
  {
    assert "service-" + node + "" == "service-" + node;
  }

  /** Each port is created as it was asked for, field by field, in the Service of the type asked for. */
  lemma EachPortAsAsked(node: string, ports: map<nat, Service>, keys: seq<nat>, w: World, k: nat) returns (i: nat)
    requires Ascending(keys) && (forall k :: k in keys <==> k in ports) && k in ports
    ensures var made, name := Created(node, ports, keys, w, |TYPE_ORDER|), HomeOf(node, ports, k);
            && Serves(made, name, i, k)
            && made[name].ports[i].targetPort == ports[k].inside
            && made[name].ports[i].name == ports[k].name
            && made[name].ports[i].nodePort == NodePortOf(ports, w, k)
            && (made[name].t.NodePort? <==> ports[k].t.ProtoNodePort?)
            && (made[name].t.ClusterIp? <==> ports[k].t.ProtoClusterIp?)
  {
    var t := K8sServiceType(ports[k].t);
    HomeIsNamed(node, ports, k);
    assert k in keys;
    var at :| 0 <= at < |keys| && keys[at] == k;
    i := GroupHas(ports, keys, |keys|, at);
    CreatedHolds(node, ports, keys, w, |TYPE_ORDER|, Number(t));
  }

  lemma {:induction false} GroupIsOfPorts(ports: map<nat, Service>, keys: seq<nat>, t: ServiceType, n: nat, i: nat)
    requires n <= |keys| && (forall k :: k in keys ==> k in ports) && i < |Group(ports, keys, t, n)|
    ensures var sp := Group(ports, keys, t, n)[i];
            sp.port in keys && K8sServiceType(ports[sp.port].t) == t
    decreases n
  {
    if n > 0 && i < |Group(ports, keys, t, n - 1)| {
      GroupIsOfPorts(ports, keys, t, n - 1, i);
    }
  }

  /** A Service is created exactly if a port belongs to it. */
  lemma CreatedExactlyHomes(node: string, ports: map<nat, Service>, keys: seq<nat>, w: World)
    requires Ascending(keys) && forall k :: k in keys <==> k in ports
    ensures Created(node, ports, keys, w, |TYPE_ORDER|).Keys == set k | k in ports :: HomeOf(node, ports, k)
  {
    var made := Created(node, ports, keys, w, |TYPE_ORDER|);
    forall k | k in ports ensures HomeOf(node, ports, k) in made {
      var i := EachPortAsAsked(node, ports, keys, w, k);
    }
    forall name | name in made ensures exists k :: k in ports && HomeOf(node, ports, k) == name {
      var k := PortAtHome(node, ports, keys, w, name, 0);
    }
  }

  lemma PortAtHome(node: string, ports: map<nat, Service>, keys: seq<nat>, w: World, name: string, i: nat)
    returns (k: nat)
    requires forall k :: k in keys ==> k in ports
    requires name in Created(node, ports, keys, w, |TYPE_ORDER|)
    ensures k in ports && HomeOf(node, ports, k) == name
    ensures var sps := Created(node, ports, keys, w, |TYPE_ORDER|)[name].ports;
            sps != [] && (i < |sps| ==> Serves(Created(node, ports, keys, w, |TYPE_ORDER|), name, i, k))
  {
    CreatedNames(node, ports, keys, w, |TYPE_ORDER|);
    var j :| 0 <= j < |TYPE_ORDER| && name == ServiceName(node, TYPE_ORDER[j])
             && Group(ports, keys, TYPE_ORDER[j], |keys|) != [];
    CreatedHolds(node, ports, keys, w, |TYPE_ORDER|, j);
    var group := Group(ports, keys, TYPE_ORDER[j], |keys|);
    var at := if i < |group| then i else 0;
    k := group[at].port;
    GroupIsOfPorts(ports, keys, TYPE_ORDER[j], |keys|, at);
    HomeIsNamed(node, ports, k);
  }

  lemma AcceptedByName(before: map<string, K8sService>, node: string, ports: map<nat, Service>, keys: seq<nat>, w: World)
    requires forall k :: k in keys ==> k in ports
    ensures Accepted(before, node, ports, keys, w)
            <==> forall name :: name in Created(node, ports, keys, w, |TYPE_ORDER|).Keys ==> name !in before && name !in w.refused
  {
    CreatedNames(node, ports, keys, w, |TYPE_ORDER|);
  }

  /** The API server takes everything exactly if it takes the Service of each port. */
  lemma AcceptedExactlyWhen(before: map<string, K8sService>, node: string, ports: map<nat, Service>, keys: seq<nat>, w: World)
    requires Ascending(keys) && forall k :: k in keys <==> k in ports
    ensures Accepted(before, node, ports, keys, w)
            <==> forall k :: k in ports ==> HomeOf(node, ports, k) !in before && HomeOf(node, ports, k) !in w.refused
  {
    AcceptedByName(before, node, ports, keys, w);
    CreatedExactlyHomes(node, ports, keys, w);
  }

  /** The proxied node ports are exactly those that ports asking for external IPv6 end up with. */
  lemma ProxiedExactlyWhen(node: string, ports: map<nat, Service>, keys: seq<nat>, w: World, proxied: seq<nat>, p: nat)
    requires Ascending(keys) && forall k :: k in keys <==> k in ports
    requires ProxiesExactly(ports, Created(node, ports, keys, w, |TYPE_ORDER|), proxied)
    ensures p in proxied <==> p > 0 && exists k :: k in ports && ports[k].externalIpv6 && NodePortOf(ports, w, k) == p
  {
    var made := Created(node, ports, keys, w, |TYPE_ORDER|);
    if p in proxied {
      var name :| name in made && NeedsProxy(ports, made[name], p);
      var i :| 0 <= i < |made[name].ports| && Proxies(ports, made[name].ports[i]) && made[name].ports[i].nodePort == p;
      var k := PortAtHome(node, ports, keys, w, name, i);
      var i' := EachPortAsAsked(node, ports, keys, w, k);
      var i'' := EachPortOnce(node, ports, keys, w, k);
      assert i == i'' == i';
    }
    if k :| k in ports && ports[k].externalIpv6 && NodePortOf(ports, w, k) == p && p > 0 {
      var i := EachPortAsAsked(node, ports, keys, w, k);
      var name := HomeOf(node, ports, k);
      assert Proxies(ports, made[name].ports[i]);
      assert NeedsProxy(ports, made[name], p);
    }
  }
}
