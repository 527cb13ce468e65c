/**
 The address pool handed to the load balancer (deploy/deploy.go `inc`, `makePool`): counting up an IP address
 kept as big-endian bytes.
 */
module AddressPool {
  import opened Bytes

  /** The number of addresses of n bytes. */
  function Space(n: nat): (s: nat)
    ensures s > 0
  {
    if n == 0 then 1 else 256 * Space(n - 1)
  }

  /** The big-endian value. */
  function Value(ip: seq<Byte>): (v: nat)
    ensures v < Space(|ip|)
  {
    if ip == [] then 0 else 256 * Value(ip[..|ip| - 1]) + ip[|ip| - 1] as nat
  }

  /** One more, byte by byte: trailing 255s become 0 and the byte before them takes the carry. */
  function Increment(ip: seq<Byte>): (r: seq<Byte>)
    ensures |r| == |ip|
  {
    if ip == [] then []
    else
      var n := |ip| - 1;
      if ip[n] == 255 then Increment(ip[..n]) + [0] else ip[..n] + [ip[n] + 1]
  }

  /** Byte-wise counting is counting: the value goes up by one, from the last address to the first. */
  lemma {:induction false} IncrementCounts(ip: seq<Byte>)
    ensures Value(Increment(ip)) == if Value(ip) + 1 == Space(|ip|) then 0 else Value(ip) + 1
    decreases |ip|
  {
    if ip != [] {
      var n := |ip| - 1;
      var r := Increment(ip);
      if ip[n] == 255 {
        IncrementCounts(ip[..n]);
        assert r[..n] == Increment(ip[..n]);
      } else {
        assert r[..n] == ip[..n];
      }
    }
  }

  /** The inner loop of `inc`. */
  method IncrementInPlace(ip: array<Byte>)
    modifies ip
    ensures ip[..] == Increment(old(ip[..]))
  {
    ghost var was := ip[..];
    var j := ip.Length - 1;
    assert was[..ip.Length] == was;
    while j >= 0
      invariant -1 <= j < ip.Length
      invariant ip[..j + 1] == was[..j + 1]
      invariant Increment(was) == Increment(was[..j + 1]) + ip[j + 1..]
    {
      ghost var rest := ip[j + 1..];
      assert was[..j + 1][..j] == was[..j];
      ip[j] := if ip[j] == 255 then 0 else ip[j] + 1;
      assert ip[j..] == [ip[j]] + rest;
      if ip[j] > 0 {
        assert ip[..] == was[..j] + [ip[j]] + rest;
        return;
      }
      j := j - 1;
    }
  }

  /** v modulo s, by subtraction. */
  function Wrapped(v: nat, s: nat): (r: nat)
    requires s > 0
    ensures r < s && (v < s ==> r == v)
    decreases v
  {
    if v < s then v else Wrapped(v - s, s)
  }

  lemma {:induction false} WrappedStep(v: nat, s: nat)
    requires s > 0
    ensures Wrapped(v + 1, s) == if Wrapped(v, s) + 1 == s then 0 else Wrapped(v, s) + 1
    decreases v
  {
    if v >= s {
      WrappedStep(v - s, s);
    }
  }

  lemma MultipleAtLeast(d: int, s: nat)
    requires d >= 1
    ensures d * s >= s
  {
    assert (d - 1) * s >= 0;
    assert d * s == (d - 1) * s + s;
  }

  lemma RemainderUnique(q: int, r: nat, q': int, r': nat, s: nat)
    requires r < s && r' < s && q * s + r == q' * s + r'
    ensures r == r'
  {
    if q > q' {
      MultipleAtLeast(q - q', s);
    } else if q < q' {
      MultipleAtLeast(q' - q, s);
    }
  }

  lemma ModShift(x: nat, s: nat)
    requires s > 0
    ensures (x + s) % s == x % s
  {
    var q := x / s;
    assert (q + 1) * s == q * s + s;
    RemainderUnique(q + 1, x % s, (x + s) / s, (x + s) % s, s);
  }

  lemma {:induction false} WrappedIsModulo(v: nat, s: nat)
    requires s > 0
    ensures Wrapped(v, s) == v % s
    decreases v
  {
    if v >= s {
      WrappedIsModulo(v - s, s);
      ModShift(v - s, s);
    }
  }

  /** `inc`: adds cnt, running over from the last address to the first; a negative count adds nothing. */
  method Inc(ip: array<Byte>, cnt: int)
    modifies ip
    ensures Value(ip[..]) == (Value(old(ip[..])) + if cnt > 0 then cnt else 0) % Space(ip.Length)
  {
    ghost var v, space := Value(ip[..]), Space(ip.Length);
    var left := cnt;
    ghost var done: nat := 0;
    while left > 0
      invariant left >= 0 || left == cnt
      invariant done == if cnt > 0 then cnt - left else 0
      invariant Value(ip[..]) == Wrapped(v + done, space)
    {
      IncrementCounts(ip[..]);
      WrappedStep(v + done, space);
      IncrementInPlace(ip);
      left := left - 1;
      done := done + 1;
    }
    WrappedIsModulo(v + done, space);
  }

  /** A range of addresses, both ends included. */
  datatype Pool = Pool(start: seq<Byte>, end: seq<Byte>) {
    /** How many addresses the range holds; none if it runs backwards. */
    function Size(): nat {
      if Value(start) <= Value(end) then Value(end) - Value(start) + 1 else 0
    }
  }

  /** `makePool`: the network address itself is copied and stays as it is. */
  method MakePool(network: array<Byte>, count: int) returns (pool: Pool)
    ensures |pool.start| == |pool.end| == network.Length
    ensures Value(pool.start) == (Value(network[..]) + 50) % Space(network.Length)
    ensures Value(pool.end) == (Value(pool.start) + if count > 0 then count else 0) % Space(network.Length)
  {
    var start := new Byte[network.Length](i requires 0 <= i < network.Length reads network => network[i]);
    assert start[..] == network[..];
    Inc(start, 50);
    var end := new Byte[start.Length](i requires 0 <= i < start.Length reads start => start[i]);
    assert end[..] == start[..];
    Inc(end, count);
    pool := Pool(start[..], end[..]);
  }

  /**
   The pool holds count + 1 addresses, starting 50 above the network, exactly if neither end runs over the
   end of the address space.
   */
  lemma PoolSize(network: nat, count: nat, n: nat, pool: Pool)
    requires network < Space(n) && |pool.start| == |pool.end| == n
    requires Value(pool.start) == (network + 50) % Space(n)
    requires Value(pool.end) == (Value(pool.start) + count) % Space(n)
    ensures Value(pool.start) == network + 50 && pool.Size() == count + 1 <==> network + 50 + count < Space(n)
  {
    WrappedIsModulo(network + 50, Space(n));
    WrappedIsModulo(Value(pool.start) + count, Space(n));
  }
}
