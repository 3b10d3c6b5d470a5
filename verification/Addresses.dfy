/**
 * Tunnel addresses of a fleet: internal/controller/gcp_zones.go. Text parsing (net.ParseCIDR, net.ParseIP) is the
 * caller's.
 */
module Addresses {
  import opened Text
  import Identity

  const CAPACITY_LIMIT: nat := 256
  const UINT32: nat := 0x1_0000_0000

  /** What net.ParseCIDR yields; the network address comes masked. */
  datatype Subnet = BadCIDR | V6Net | V4Net(base: nat, ones: nat) {
    predicate Valid() {
      V4Net? ==> ones <= 32 && base < UINT32 && base % Size(ones) == 0
    }
  }

  /** What net.ParseIP yields; an IPv4-mapped address is its IPv4 address. */
  datatype IP = BadIP | V6(bits: nat) | V4(v: nat) {
    predicate Valid() { V4? ==> v < UINT32 }
  }

  function Size(ones: nat): (n: nat)
    requires ones <= 32
    ensures n > 0
  {
    Identity.Shl(1, 32 - ones)
  }

  lemma {:induction false} ShlProduct(a: nat, m: nat, n: nat)
    ensures Identity.Shl(a, m + n) == Identity.Shl(a, m) * Identity.Shl(1, n)
  {
    if n > 0 { ShlProduct(a, m, n - 1); }
  }

  lemma {:induction false} ShlMonotone(m: nat, n: nat)
    requires m <= n
    ensures 0 < Identity.Shl(1, m) <= Identity.Shl(1, n)
  {
    if n > 0 { ShlMonotone(if m == n then m - 1 else m, n - 1); }
  }

  /** Sizes are powers of two up to 2^32, so an aligned network ends inside the 32-bit range. */
  lemma SizeFacts(ones: nat)
    requires ones <= 32
    ensures 1 <= Size(ones) <= UINT32 == Size(0)
    ensures Size(ones) * Identity.Shl(1, ones) == UINT32
    ensures ones > 30 <==> Size(ones) < 4
  {
    ShlProduct(1, 32 - ones, ones);
    ShlProduct(1, 16, 16);
    Identity.ShlValue(1);
    ShlMonotone(32 - ones, 32);
    assert Identity.Shl(1, 2) == 4 && Identity.Shl(1, 1) == 2;
    if ones <= 30 { ShlMonotone(2, 32 - ones); }
  }

  lemma NetworkFits(base: nat, ones: nat)
    requires ones <= 32 && base < UINT32 && base % Size(ones) == 0
    ensures base + Size(ones) <= UINT32
  {
    SizeFacts(ones);
    MultiplesStep(base, UINT32, Size(ones), Identity.Shl(1, ones));
  }

  lemma MultiplesStep(a: nat, b: nat, n: nat, q: nat)
    requires n > 0 && a % n == 0 && b == n * q && a < b
    ensures a + n <= b
  {
    var p := a / n;
    assert a == n * p;
    assert p < q;
    assert n * (p + 1) <= n * q;
  }

  /** First address and size of the network; anything but IPv4 counts no address. */
  function NetworkRange(net: Subnet): (r: (nat, nat))
    requires net.Valid()
  {
    if net.V4Net? then (net.base, Size(net.ones)) else (0, 0)
  }

  /** The addresses between the network and the broadcast address. */
  predicate IsHost(net: Subnet, v: nat)
    requires net.Valid()
  {
    var (base, size) := NetworkRange(net);
    base < v < base + size - 1
  }

  predicate Contains(net: Subnet, v: nat)
    requires net.Valid() && net.V4Net?
  {
    var size := Size(net.ones);
    SizeFacts(net.ones);
    v / size * size == net.base
  }

  lemma ContainsIsRange(net: Subnet, v: nat)
    requires net.Valid() && net.V4Net?
    ensures Contains(net, v) <==> net.base <= v < net.base + Size(net.ones)
  {
    MaskIsRange(v, Size(net.ones), net.base);
  }

  lemma MaskIsRange(v: nat, n: nat, base: nat)
    requires n > 0 && base % n == 0
    ensures v / n * n == base <==> base <= v < base + n
  {
    var q := base / n;
    assert base == q * n && v == v / n * n + v % n;
    if base <= v < base + n { QuotientIs(v, n, q); }
  }

  lemma QuotientIs(v: nat, n: nat, q: nat)
    requires n > 0 && q * n <= v < q * n + n
    ensures v / n == q
  {
    var p := v / n;
    assert p * n <= v < p * n + n;
    assert p < q ==> (p + 1) * n <= q * n;
    assert p > q ==> (q + 1) * n <= p * n;
  }

  /** The code's mask-and-compare test accepts exactly the hosts strictly inside the network. */
  predicate UsableHost(net: Subnet, ip: IP)
    requires net.Valid() && ip.Valid()
    ensures UsableHost(net, ip) <==> ip.V4? && IsHost(net, ip.v)
  {
    if !ip.V4? || !net.V4Net? || !Contains(net, ip.v) then
      assert ip.V4? && net.V4Net? ==> !IsHost(net, ip.v) by {
        if ip.V4? && net.V4Net? { ContainsIsRange(net, ip.v); }
      }
      false
    else
      ContainsIsRange(net, ip.v);
      var (base, size) := NetworkRange(net);
      size >= 4 && ip.v != base && ip.v != base + size - 1
  }

  /** min(256, usable hosts less the link's own address), 0 when the network has no room for two hosts. */
  function CapacityOf(net: Subnet): (c: nat)
    requires net.Valid()
    ensures c <= CAPACITY_LIMIT
    ensures c > 0 <==> net.V4Net? && net.ones <= 30
  {
    var size := NetworkRange(net).1;
    if net.V4Net? then SizeFacts(net.ones); if size < 4 then 0 else Min(size - 2 - 1, CAPACITY_LIMIT)
    else 0
  }

  function Min(a: nat, b: nat): nat { if a < b then a else b }

  // ---------------------------------------------------------------- the address list

  ghost predicate Free(net: Subnet, gateway: nat, link: nat, v: nat)
    requires net.Valid()
  {
    IsHost(net, v) && v != gateway && v != link
  }

  ghost predicate Climbs(s: seq<nat>) { forall i, j :: 0 <= i < j < |s| ==> s[i] < s[j] }

  /** `hosts` are the `n` lowest free hosts, in order: free hosts left out lie above all of them. */
  ghost predicate LowestFree(net: Subnet, gateway: nat, link: nat, n: nat, hosts: seq<nat>)
    requires net.Valid()
  {
    && |hosts| == n && Climbs(hosts)
    && (forall h :: h in hosts ==> Free(net, gateway, link, h))
    && (forall v, h :: Free(net, gateway, link, v) && v !in hosts && h in hosts ==> h < v)
  }

  /** Lowest, free, ascending and counted: only one sequence is all four. */
  lemma {:induction false} LowestFreeUnique(net: Subnet, gateway: nat, link: nat, n: nat, a: seq<nat>, b: seq<nat>)
    requires net.Valid() && LowestFree(net, gateway, link, n, a) && LowestFree(net, gateway, link, n, b)
    ensures a == b
  {
    var k := 0;
    while k < n
      invariant k <= n && a[..k] == b[..k]
    {
      LeastNext(net, gateway, link, a, b, k);
      LeastNext(net, gateway, link, b, a, k);
      k := k + 1;
    }
    assert a == a[..n] && b == b[..n];
  }

  lemma LeastNext(net: Subnet, gateway: nat, link: nat, a: seq<nat>, b: seq<nat>, k: nat)
    requires net.Valid() && LowestFree(net, gateway, link, |a|, a) && LowestFree(net, gateway, link, |a|, b)
    requires k < |a| && a[..k] == b[..k]
    ensures a[k] <= b[k]
  {
    var v := b[k];
    assert Free(net, gateway, link, v);
    if v in a {
      var j :| 0 <= j < |a| && a[j] == v;
      assert forall i :: 0 <= i < k ==> a[..k][i] == b[..k][i];
    } else {
      assert a[k] in a;
    }
  }

  datatype Rejection = SubnetUnparsable | GatewayUnparsable | LinkUnparsable | Identical | GatewayNotAHost
      | LinkNotAHost

  /** Why a Gateway's tunnel addresses are refused, in the order they are checked. */
  function Reject(net: Subnet, gateway: IP, link: IP): (r: Option<Rejection>)
    requires net.Valid() && gateway.Valid() && link.Valid()
    ensures r.None? <==> gateway.V4? && link.V4? && gateway != link && IsHost(net, gateway.v) && IsHost(net, link.v)
  {
    if net.BadCIDR? then Some(SubnetUnparsable)
    else if gateway.BadIP? then Some(GatewayUnparsable)
    else if link.BadIP? then Some(LinkUnparsable)
    else if gateway == link then Some(Identical)
    else if !UsableHost(net, gateway) then Some(GatewayNotAHost)
    else if !UsableHost(net, link) then Some(LinkNotAHost)
    else None
  }

  function AddUint32(a: nat, b: nat): (r: nat) { (a + b % UINT32) % UINT32 }

  /**
   * The counting loop. The list is exactly the CapacityOf-1 lowest hosts once the gateway's and the link's are
   * set aside, from /0 down to /30, and the 32-bit addition never wraps.
   */
  method TunnelAddresses(net: Subnet, gateway: IP, link: IP)
    returns (eligible: seq<string>, rejected: Option<Rejection>, hosts: seq<nat>)
    requires net.Valid() && gateway.Valid() && link.Valid()
    ensures rejected == Reject(net, gateway, link)
    ensures rejected.Some? ==> hosts == []
    ensures rejected.None? ==> CapacityOf(net) >= 1 && LowestFree(net, gateway.v, link.v, CapacityOf(net) - 1, hosts)
    ensures (forall k :: 0 <= k < |hosts| ==> hosts[k] < UINT32) && eligible == Texts(hosts)
  {
    eligible, hosts, rejected := [], [], Reject(net, gateway, link);
    if rejected.Some? {
      return;
    }
    var (base, size) := NetworkRange(net);
    SizeFacts(net.ones);
    NetworkFits(net.base, net.ones);
    hosts := CountHosts(base, size, {gateway.v, link.v}, CapacityOf(net) - 1, gateway.v, link.v);
    eligible := Texts(hosts);
  }

  method CountHosts(base: nat, size: nat, taken: set<nat>, want: nat, gateway: nat,
                    link: nat) returns (eligible: seq<nat>)
    requires 4 <= size && base + size <= UINT32 && want <= size - 4 && taken == {gateway, link}
    requires gateway != link && base < gateway < base + size - 1 && base < link < base + size - 1
    ensures |eligible| == want && Climbs(eligible)
    ensures forall k :: 0 <= k < |eligible| ==> base < eligible[k] < base + size - 1 && eligible[k] !in taken
    ensures forall v, h :: base < v < base + size - 1 && v !in taken && v !in eligible && h in eligible ==> h < v
  {
    eligible := [];
    var i := 1;
    while i < size - 1 && |eligible| < want
      invariant 1 <= i <= size - 1 && |eligible| <= want
      invariant Climbs(eligible)
      invariant forall k :: 0 <= k < |eligible| ==> base < eligible[k] < base + i && eligible[k] !in taken
      invariant forall v :: base < v < base + i && v !in taken ==> v in eligible
      invariant |eligible| == i - 1 - (if gateway < base + i then 1 else 0) - (if link < base + i then 1 else 0)
    {
      var host := AddUint32(base, i);
      assert host == base + i;
      if host !in taken {
        eligible := eligible + [host];
      }
      i := i + 1;
    }
  }

  function Texts(hosts: seq<nat>): (r: seq<string>)
    requires forall k :: 0 <= k < |hosts| ==> hosts[k] < UINT32
    ensures |r| == |hosts| && forall i :: 0 <= i < |hosts| ==> r[i] == Dotted(hosts[i])
  {
    seq(|hosts|, i requires 0 <= i < |hosts| => Dotted(hosts[i]))
  }

  // ---------------------------------------------------------------- text

  function Bytes(v: nat): (b: seq<nat>)
    requires v < UINT32
    ensures |b| == 4 && forall i :: 0 <= i < 4 ==> b[i] < 256
  {
    [v / 0x1000000, v / 0x10000 % 0x100, v / 0x100 % 0x100, v % 0x100]
  }

  function FromBytes(b: seq<nat>): nat
    requires |b| == 4
  {
    b[0] * 0x1000000 + b[1] * 0x10000 + b[2] * 0x100 + b[3]
  }

  /** ipToUint32 undoes uint32ToIP. */
  lemma BytesRoundTrip(v: nat)
    requires v < UINT32
    ensures FromBytes(Bytes(v)) == v
  {
    var h := v / 0x100;
    assert v == h * 0x100 + v % 0x100;
    assert h / 0x100 == v / 0x10000 && (h / 0x100) / 0x100 == v / 0x1000000;
    assert h == (h / 0x100) * 0x100 + h % 0x100;
    assert h / 0x100 == (v / 0x1000000) * 0x100 + (h / 0x100) % 0x100;
  }

  /** net.IP.String of an IPv4 address. */
  function Dotted(v: nat): string
    requires v < UINT32
  {
    var b := Bytes(v);
    Itoa(b[0]) + ['.'] + (Itoa(b[1]) + ['.'] + (Itoa(b[2]) + ['.'] + Itoa(b[3])))
  }

  lemma DottedInjective(v: nat, w: nat)
    requires v < UINT32 && w < UINT32 && Dotted(v) == Dotted(w)
    ensures v == w
  {
    var b, c := Bytes(v), Bytes(w);
    CutFirst(b[0], Itoa(b[1]) + ['.'] + (Itoa(b[2]) + ['.'] + Itoa(b[3])), c[0],
        Itoa(c[1]) + ['.'] + (Itoa(c[2]) + ['.'] + Itoa(c[3])));
    CutFirst(b[1], Itoa(b[2]) + ['.'] + Itoa(b[3]), c[1], Itoa(c[2]) + ['.'] + Itoa(c[3]));
    CutFirst(b[2], Itoa(b[3]), c[2], Itoa(c[3]));
    ItoaInjective(b[3], c[3]);
    BytesRoundTrip(v);
    BytesRoundTrip(w);
    assert b == [b[0], b[1], b[2], b[3]] && c == [c[0], c[1], c[2], c[3]];
  }

  lemma CutFirst(a: nat, rest: string, b: nat, rest': string)
    requires Itoa(a) + ['.'] + rest == Itoa(b) + ['.'] + rest'
    ensures a == b && rest == rest'
  {
    Identity.NotDigit(Itoa(a), '.');
    Identity.NotDigit(Itoa(b), '.');
    CutOfJoin(Itoa(a), rest, '.');
    CutOfJoin(Itoa(b), rest', '.');
    ItoaInjective(a, b);
  }
}
