/**
 `renameInterfaces` of the alpine and sonic nodes (topo/node/alpine/alpine.go, topo/node/sonic/sonic.go):
 keys starting with "Ethernet" become eth1, eth2, ... in the order the map happens to be visited.
 */
module InterfaceNames {
  import opened Names
  import opened TopologyLoad
  import opened TopologyWiring

  predicate IsEthernet(k: string) {
    "Ethernet" <= k
  }

  function EthName(i: nat): string {
    Numbered("eth", i)
  }

  function EthernetKeys(keys: set<string>): set<string> {
    set k | k in keys && IsEthernet(k)
  }

  /** `to` sends the keys visited so far to their new names; `order` lists the renamed ones. */
  ghost predicate Assigned(visited: set<string>, order: seq<string>, to: map<string, string>) {
    && to.Keys == visited
    && (forall k :: k in visited && !IsEthernet(k) ==> to[k] == k)
    && (forall k :: k in EthernetKeys(visited) <==> k in order)
    && (forall i, j :: 0 <= i < j < |order| ==> order[i] != order[j])
    && (forall i :: 0 <= i < |order| ==> order[i] in visited && to[order[i]] == EthName(i + 1))
  }

  /** `out` has exactly the new names as keys, each with the interface of some key sent there. */
  ghost predicate Image(interfaces: map<string, Interface>, to: map<string, string>, out: map<string, Interface>) {
    && (forall k :: k in to ==> k in interfaces && to[k] in out)
    && (forall n :: n in out ==> exists k :: k in to && to[k] == n && out[n] == interfaces[k])
  }

  /** `to` and `order` report what was visited how; the source returns `out` alone. */
  method RenameInterfaces(interfaces: map<string, Interface>)
    returns (out: map<string, Interface>, to: map<string, string>, order: seq<string>)
    ensures Assigned(interfaces.Keys, order, to) && Image(interfaces, to, out)
  {
    var idx := 1;
    out, to, order := map[], map[], [];
    var all, visited := interfaces.Keys, {};
    while all - visited != {}
      invariant visited <= all
      invariant idx == |order| + 1
      invariant Assigned(visited, order, to)
      invariant Image(interfaces, to, out)
      decreases all - visited
    {
      var k :| k in all - visited;
      if IsEthernet(k) {
        var name := EthName(idx);
        ImageNext(interfaces, to, out, k, name);
        AssignedNext(visited, order, to, k);
        idx := idx + 1;
        out := out[name := interfaces[k]];
        to := to[k := name];
        order := order + [k];
      } else {
        ImageNext(interfaces, to, out, k, k);
        KeptNext(visited, order, to, k);
        out := out[k := interfaces[k]];
        to := to[k := k];
      }
      visited := visited + {k};
    }
    assert forall k :: k in all ==> k in visited || k in all - visited;
    assert visited == all;
  }

  lemma AssignedNext(visited: set<string>, order: seq<string>, to: map<string, string>, k: string)
    requires Assigned(visited, order, to) && k !in visited && IsEthernet(k)
    ensures Assigned(visited + {k}, order + [k], to[k := EthName(|order| + 1)])
  {
    assert EthernetKeys(visited + {k}) == EthernetKeys(visited) + {k};
  }

  lemma KeptNext(visited: set<string>, order: seq<string>, to: map<string, string>, k: string)
    requires Assigned(visited, order, to) && k !in visited && !IsEthernet(k)
    ensures Assigned(visited + {k}, order, to[k := k])
  {
    assert EthernetKeys(visited + {k}) == EthernetKeys(visited);
  }

  lemma ImageNext(interfaces: map<string, Interface>, to: map<string, string>, out: map<string, Interface>, k: string, name: string)
    requires Image(interfaces, to, out) && k in interfaces && k !in to
    ensures Image(interfaces, to[k := name], out[name := interfaces[k]])
  {
    var to', out' := to[k := name], out[name := interfaces[k]];
    forall n | n in out' ensures exists m :: m in to' && to'[m] == n && out'[n] == interfaces[m] {
      if n == name {
        assert to'[k] == n;
      } else {
        var m :| m in to && to[m] == n && out[n] == interfaces[m];
        assert to'[m] == n;
      }
    }
  }

  // ---- When no interface is lost ------------------------------------------

  /** No key already has one of the names that will be given out. */
  ghost predicate NoClash(interfaces: map<string, Interface>) {
    forall i :: 1 <= i <= |EthernetKeys(interfaces.Keys)| ==> EthName(i) !in interfaces
  }

  ghost predicate Injective(to: map<string, string>) {
    forall k, l :: k in to && l in to && to[k] == to[l] ==> k == l
  }

  lemma {:induction false} DistinctCount(s: seq<string>, keys: set<string>)
    requires forall k :: k in s <==> k in keys
    requires forall i, j :: 0 <= i < j < |s| ==> s[i] != s[j]
    ensures |s| == |keys|
    decreases |s|
  {
    if s == [] {
      assert keys == {};
    } else {
      var last := s[|s| - 1];
      var rest := s[..|s| - 1];
      assert s == rest + [last];
      assert last !in rest;
      DistinctCount(rest, keys - {last});
    }
  }

  lemma EthNameIsNotEthernet(i: nat)
    ensures !IsEthernet(EthName(i))
  {
    assert EthName(i)[0] == 'e';
  }

  lemma InjectiveExactlyWithoutClash(interfaces: map<string, Interface>, order: seq<string>, to: map<string, string>)
    requires Assigned(interfaces.Keys, order, to)
    ensures Injective(to) <==> NoClash(interfaces)
  {
    DistinctCount(order, EthernetKeys(interfaces.Keys));
    if NoClash(interfaces) {
      forall k, l | k in to && l in to && to[k] == to[l] ensures k == l {
        if IsEthernet(k) {
          var i := Position(interfaces.Keys, order, to, k);
          if IsEthernet(l) {
            var j := Position(interfaces.Keys, order, to, l);
            NumberedInjective("eth", i + 1, j + 1);
          }
        } else if IsEthernet(l) {
          var j := Position(interfaces.Keys, order, to, l);
        }
      }
    } else {
      var i :| 1 <= i <= |order| && EthName(i) in interfaces;
      EthNameIsNotEthernet(i);
      assert order[i - 1] in order;
      assert to[order[i - 1]] == EthName(i) == to[EthName(i)];
      assert order[i - 1] in EthernetKeys(interfaces.Keys);
    }
  }

  lemma Position(visited: set<string>, order: seq<string>, to: map<string, string>, k: string) returns (i: nat)
    requires Assigned(visited, order, to) && k in visited && IsEthernet(k)
    ensures i < |order| && order[i] == k && to[k] == EthName(i + 1)
  {
    assert k in EthernetKeys(visited);
    i :| 0 <= i < |order| && order[i] == k;
  }

  lemma ValuesWithout(to: map<string, string>, k: string)
    requires k in to
    ensures to.Values == (to - {k}).Values + {to[k]}
    ensures (to - {k}).Keys == to.Keys - {k}
  {
    var rest := to - {k};
    forall v | v in to.Values ensures v in rest.Values + {to[k]} {
      var m :| m in to && to[m] == v;
      assert m != k ==> m in rest && rest[m] == v;
    }
    forall v | v in rest.Values ensures v in to.Values {
      var m :| m in rest && rest[m] == v;
      assert m in to && to[m] == v;
    }
  }

  lemma {:induction false} ValuesAtMost(to: map<string, string>)
    ensures |to.Values| <= |to.Keys|
    decreases |to.Keys|
  {
    if to.Keys != {} {
      var k :| k in to.Keys;
      ValuesWithout(to, k);
      ValuesAtMost(to - {k});
    } else {
      assert to.Values == {};
    }
  }

  /** A map is injective exactly if it has as many values as keys. */
  lemma {:induction false} InjectiveCount(to: map<string, string>)
    ensures |to.Values| == |to.Keys| <==> Injective(to)
    decreases |to.Keys|
  {
    if to.Keys == {} {
      assert to.Values == {};
    } else if k, l :| k in to && l in to && to[k] == to[l] && k != l {
      var rest := to - {k};
      ValuesWithout(to, k);
      assert l in rest && rest[l] == to[k];
      assert to.Values == rest.Values;
      ValuesAtMost(rest);
    } else {
      var k :| k in to.Keys;
      var rest := to - {k};
      ValuesWithout(to, k);
      InjectiveCount(rest);
      assert to[k] !in rest.Values;
    }
  }

  /** The keys of `to`, found by their new names. */
  ghost function Inverse(to: map<string, string>): map<string, string> {
    map n | n in to.Values :: var k :| k in to && to[k] == n; k
  }

  lemma InjectiveIsRenaming(interfaces: map<string, Interface>, out: map<string, Interface>, to: map<string, string>)
    requires Image(interfaces, to, out) && to.Keys == interfaces.Keys
    ensures Injective(to) <==> Renamed(interfaces, to, Inverse(to), out)
  {
    var from := Inverse(to);
    assert out.Keys == to.Values;
    if Injective(to) {
      forall k | k in to ensures to[k] in from && from[to[k]] == k {
        assert to[k] in to.Values;
      }
      forall n | n in from ensures from[n] in to && to[from[n]] == n && out[n] == interfaces[from[n]] {
        var k :| k in to && to[k] == n && out[n] == interfaces[k];
        assert from[n] == k;
      }
    } else {
      var k, l :| k in to && l in to && to[k] == to[l] && k != l;
      assert from[to[k]] != k || from[to[l]] != l;
    }
  }

  /**
   Every interface survives the renaming -- it is a renaming in the sense that peer resolution needs --
   exactly if no key clashes with a name given out. Otherwise the result has fewer interfaces, and
   which one is lost depends on the visiting order.
   */
  lemma RenamesExactlyWithoutClash(interfaces: map<string, Interface>, out: map<string, Interface>,
                                   to: map<string, string>, order: seq<string>)
    requires Assigned(interfaces.Keys, order, to) && Image(interfaces, to, out)
    ensures |out.Keys| == |interfaces.Keys| <==> NoClash(interfaces)
    ensures Renamed(interfaces, to, Inverse(to), out) <==> NoClash(interfaces)
  {
    InjectiveExactlyWithoutClash(interfaces, order, to);
    InjectiveCount(to);
    InjectiveIsRenaming(interfaces, out, to);
    assert out.Keys == to.Values;
  }

  /** The clash happens: next to any Ethernet key, a key eth1 costs an interface. */
  lemma ClashLosesInterface(interfaces: map<string, Interface>, out: map<string, Interface>,
                            to: map<string, string>, order: seq<string>, k: string)
    requires Assigned(interfaces.Keys, order, to) && Image(interfaces, to, out)
    requires k in interfaces && IsEthernet(k) && EthName(1) in interfaces
    ensures |out.Keys| < |interfaces.Keys|
  {
    RenamesExactlyWithoutClash(interfaces, out, to, order);
    assert k in EthernetKeys(interfaces.Keys);
    assert !NoClash(interfaces);
    assert out.Keys == to.Values;
    ValuesAtMost(to);
  }

  /** Every key that begins with Ethernet gets the name eth and a number from 1 on of its own, every other key stays. */
  lemma NewNames(interfaces: map<string, Interface>, order: seq<string>, to: map<string, string>, k: string) returns (i: nat)
    requires Assigned(interfaces.Keys, order, to) && k in interfaces
    ensures (forall rest :: k != "Ethernet" + rest) ==> to[k] == k
    ensures (exists rest :: k == "Ethernet" + rest) ==>
              && 1 <= i <= |set l | l in interfaces && IsEthernet(l)| && to[k] == "eth" + Decimal(i)
              && forall l :: l in interfaces && IsEthernet(l) && to[l] == to[k] ==> l == k
  {
    i := 0;
    DistinctCount(order, EthernetKeys(interfaces.Keys));
    assert EthernetKeys(interfaces.Keys) == set l | l in interfaces && IsEthernet(l);
    if IsEthernet(k) {
      assert k == "Ethernet" + k[8..];
      var at := Position(interfaces.Keys, order, to, k);
      i := at + 1;
      forall l | l in interfaces && IsEthernet(l) && to[l] == to[k] ensures l == k {
        var j := Position(interfaces.Keys, order, to, l);
        NumberedInjective("eth", i, j + 1);
      }
    }
  }
}
