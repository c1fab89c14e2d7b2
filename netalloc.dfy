/**
 * IPv4 address allocation for a new network interface (driver.go,
 * `ConfigureNetworkInterface`): the byte-wise `inc` closure, the set of blocked
 * addresses, the first-fit walk through the subnet and the assembled interface record.
 *
 * `net.ParseCIDR` returns an IPv4 address in Go's 16-byte form (ten zero bytes, two 0xff
 * bytes, then the four address bytes), and the walk increments that 16-byte value. Once
 * it passes 255.255.255.255 the carry reaches the 0xff bytes, the value is no longer an
 * IPv4 address and `Contains` fails, which is what ends the walk on a full subnet.
 */
module NetAlloc {
  import opened Ints
  import opened Wrappers
  import opened Strings
  import opened Models

  /** The big-endian value of a byte string. */
  function Value(s: seq<byte>): nat {
    if s == [] then 0 else Value(s[..|s| - 1]) * 256 + s[|s| - 1] as int
  }

  function Pow256(n: nat): (p: nat)
    ensures p >= 1
  {
    if n == 0 then 1 else 256 * Pow256(n - 1)
  }

  function Pow2(n: nat): (p: nat)
    ensures p >= 1
  {
    if n == 0 then 1 else 2 * Pow2(n - 1)
  }

  predicate AllMax(s: seq<byte>) { forall i :: 0 <= i < |s| ==> s[i] == 255 }

  function Zeros(n: nat): (z: seq<byte>)
    ensures |z| == n && forall i :: 0 <= i < n ==> z[i] == 0
  {
    if n == 0 then [] else Zeros(n - 1) + [0]
  }

  /**
   * The byte string one greater, with the carry rippling from the last byte towards the
   * first; an all-0xff string wraps to zeros.
   */
  function Incremented(s: seq<byte>): (r: seq<byte>)
    ensures |r| == |s|
  {
    if s == [] then []
    else if s[|s| - 1] == 255 then Incremented(s[..|s| - 1]) + [0]
    else s[..|s| - 1] + [(s[|s| - 1] + 1) as byte]
  }

  lemma {:induction false} ValueBound(s: seq<byte>)
    ensures Value(s) < Pow256(|s|)
  {
    if s != [] {
      ValueBound(s[..|s| - 1]);
    }
  }

  lemma Base256Unique(x: nat, p: nat, y: nat, q: nat)
    requires p < 256 && q < 256
    requires x * 256 + p == y * 256 + q
    ensures x == y && p == q
  {
  }

  /** Byte strings of one length are equal exactly when their values are. */
  lemma {:induction false} ValueInjective(a: seq<byte>, b: seq<byte>)
    requires |a| == |b| && Value(a) == Value(b)
    ensures a == b
  {
    if a != [] {
      var n := |a| - 1;
      Base256Unique(Value(a[..n]), a[n] as int, Value(b[..n]), b[n] as int);
      ValueInjective(a[..n], b[..n]);
      assert a == a[..n] + [a[n]] && b == b[..n] + [b[n]];
    }
  }

  lemma {:induction false} ValueOfZeros(n: nat)
    ensures Value(Zeros(n)) == 0
  {
    if n > 0 {
      assert Zeros(n)[..n - 1] == Zeros(n - 1);
      ValueOfZeros(n - 1);
    }
  }

  lemma {:induction false} AllMaxValue(s: seq<byte>)
    requires AllMax(s)
    ensures Value(s) + 1 == Pow256(|s|)
  {
    if s != [] {
      AllMaxValue(s[..|s| - 1]);
    }
  }

  lemma {:induction false} IncrementedNoWrap(s: seq<byte>)
    requires !AllMax(s)
    ensures Value(Incremented(s)) == Value(s) + 1
  {
    var n := |s| - 1;
    var r := Incremented(s);
    if s[n] == 255 {
      IncrementedNoWrap(s[..n]);
      assert r[..n] == Incremented(s[..n]);
    } else {
      assert r[..n] == s[..n];
    }
  }

  lemma {:induction false} IncrementedWrap(s: seq<byte>)
    requires AllMax(s)
    ensures Incremented(s) == Zeros(|s|)
  {
    if s != [] {
      IncrementedWrap(s[..|s| - 1]);
    }
  }

  /**
   * `inc` is the big-endian successor: one more, unless every byte is 0xff, when the
   * result is zero (one more than the largest value wraps around).
   */
  lemma IncrementedValue(s: seq<byte>)
    ensures !AllMax(s) ==> Value(Incremented(s)) == Value(s) + 1 < Pow256(|s|)
    ensures AllMax(s) ==> Value(Incremented(s)) == 0 && Value(s) + 1 == Pow256(|s|)
  {
    if AllMax(s) {
      IncrementedWrap(s);
      ValueOfZeros(|s|);
      AllMaxValue(s);
    } else {
      IncrementedNoWrap(s);
      ValueBound(Incremented(s));
    }
  }

  /** When the low part does not overflow, the carry stays inside it. */
  lemma {:induction false} IncrementedAppend(p: seq<byte>, s: seq<byte>)
    requires !AllMax(s)
    ensures Incremented(p + s) == p + Incremented(s)
  {
    var n := |s| - 1;
    assert (p + s)[..|p + s| - 1] == p + s[..n];
    if s[n] == 255 {
      IncrementedAppend(p, s[..n]);
    }
  }

  /** When the low part overflows, it becomes zeros and the carry enters the high part. */
  lemma {:induction false} IncrementedAppendCarry(p: seq<byte>, s: seq<byte>)
    requires AllMax(s)
    ensures Incremented(p + s) == Incremented(p) + Zeros(|s|)
  {
    if s == [] {
      assert p + s == p;
    } else {
      var n := |s| - 1;
      assert (p + s)[..|p + s| - 1] == p + s[..n];
      IncrementedAppendCarry(p, s[..n]);
    }
  }

  /** Where the carry stops at byte `j`, that byte goes up by one and the bytes after it are zero. */
  lemma {:induction false} CarryStops(ipp: seq<byte>, j: nat)
    requires j < |ipp| && ipp[j] != 255 && AllMax(ipp[j + 1..])
    ensures Incremented(ipp) == ipp[..j] + [(ipp[j] + 1) as byte] + Zeros(|ipp| - j - 1)
  {
    IncrementedAppendCarry(ipp[..j + 1], ipp[j + 1..]);
    assert ipp[..j + 1] + ipp[j + 1..] == ipp;
    assert ipp[..j + 1][..j] == ipp[..j];
  }

  /** The `inc` closure: copies the address and adds one with carry from the last byte. */
  method Inc(ipp: seq<byte>) returns (ip: seq<byte>)
    ensures ip == Incremented(ipp)
  {
    var a := new byte[|ipp|](i requires 0 <= i < |ipp| => ipp[i]);
    var j := |ipp| - 1;
    assert a[..] == ipp[..j + 1] + Zeros(0);
    while j >= 0
      invariant -1 <= j < |ipp| && a.Length == |ipp|
      invariant a[..] == ipp[..j + 1] + Zeros(|ipp| - j - 1)
      invariant AllMax(ipp[j + 1..])
    {
      ghost var before := a[..];
      a[j] := ((a[j] as int + 1) % 256) as byte;
      assert a[..] == ipp[..j] + [a[j]] + Zeros(|ipp| - j - 1) by {
        assert a[..] == before[j := a[j]];
      }
      if a[j] > 0 {
        CarryStops(ipp, j);
        break;
      }
      assert [a[j]] + Zeros(|ipp| - j - 1) == Zeros(|ipp| - j);
      assert ipp[j..] == [ipp[j]] + ipp[j + 1..];
      j := j - 1;
    }
    if j < 0 {
      assert ipp[0..] == ipp;
      IncrementedWrap(ipp);
    }
    ip := a[..];
  }

  /** An IPv4 address as four bytes. */
  type Addr4 = s: seq<byte> | |s| == 4 witness [0, 0, 0, 0]

  /** The first twelve bytes of an IPv4 address in Go's 16-byte form. */
  const V4InV6Prefix: seq<byte> := [0, 0, 0, 0, 0, 0, 0, 0, 0, 0, 255, 255]

  /** `net.IP.To4`: the four address bytes, or nothing for an address that is not IPv4. */
  function To4(ip: seq<byte>): (r: Option<Addr4>)
    ensures r.Some? <==> |ip| == 4 || (|ip| == 16 && ip[..12] == V4InV6Prefix)
    ensures |ip| == 4 ==> r == Some(ip)
    ensures |ip| == 16 && r.Some? ==> ip == V4InV6Prefix + r.value
  {
    if |ip| == 4 then Some(ip)
    else if |ip| == 16 && ip[..12] == V4InV6Prefix then Some(ip[12..])
    else None
  }

  /** What `net.ParseCIDR` yields for an IPv4 CIDR: the address as written and the prefix length. */
  datatype Cidr = Cidr(addr: Addr4, prefix: nat)

  /** The number of addresses in the subnet. */
  function Span(c: Cidr): (n: nat)
    requires c.prefix <= 32
    ensures n >= 1
  {
    Pow2(32 - c.prefix)
  }

  /** `a` agrees with the CIDR's address on the first `prefix` bits. */
  predicate InSubnet(c: Cidr, a: Addr4)
    requires c.prefix <= 32
  {
    Value(a) / Span(c) == Value(c.addr) / Span(c)
  }

  /** `IPNet.Contains`: the address is IPv4 and inside the subnet. */
  predicate Contains(c: Cidr, ip: seq<byte>)
    requires c.prefix <= 32
  {
    match To4(ip)
    case None => false
    case Some(a) => InSubnet(c, a)
  }

  /** The dotted-decimal text `net.IP.String` gives an IPv4 address. */
  function Dotted(a: Addr4): string {
    Decimal(a[0] as nat) + "." + Decimal(a[1] as nat) + "." + Decimal(a[2] as nat) + "." + Decimal(a[3] as nat)
  }

  /** The four bytes whose big-endian value is `v`. */
  function Encode(n: nat, v: nat): (s: seq<byte>)
    ensures |s| == n
  {
    if n == 0 then [] else Encode(n - 1, v / 256) + [(v % 256) as byte]
  }

  lemma {:induction false} ValueOfEncode(n: nat, v: nat)
    requires v < Pow256(n)
    ensures Value(Encode(n, v)) == v
  {
    if n > 0 {
      var s := Encode(n, v);
      assert s[..n - 1] == Encode(n - 1, v / 256);
      ValueOfEncode(n - 1, v / 256);
    }
  }

  /** The subnet's network address: the CIDR's address with the host bits cleared. */
  function NetworkAddr(c: Cidr): Addr4
    requires c.prefix <= 32
  {
    Encode(4, RoundedDown(Value(c.addr), Span(c)))
  }

  /** `v` rounded down to a multiple of `d`. */
  function RoundedDown(v: nat, d: nat): (m: nat)
    requires d >= 1
    ensures m <= v
  {
    assert v == d * (v / d) + v % d;
    (v / d) * d
  }

  lemma MulAtLeast(d: nat, k: nat)
    requires k >= 1
    ensures d * k >= d
  {
    assert d * k == d + d * (k - 1);
  }

  lemma DivMonotone(x: nat, y: nat, d: nat)
    requires x <= y && d >= 1
    ensures x / d <= y / d
  {
    var qx, qy := x / d, y / d;
    assert x == d * qx + x % d && y == d * qy + y % d;
    if qx > qy {
      assert d * qx == d * qy + d * (qx - qy);
      MulAtLeast(d, qx - qy);
    }
  }

  lemma DivOfMul(q: nat, d: nat)
    requires d >= 1
    ensures (q * d) / d == q
  {
    var n := q * d;
    assert n == d * q + 0;
    DivUnique(n, d, q, 0);
  }

  lemma DivUnique(n: nat, d: nat, q: nat, r: nat)
    requires d >= 1 && r < d && n == d * q + r
    ensures n / d == q
  {
    var q' := n / d;
    assert n == d * q' + n % d;
    if q' < q {
      assert d * q == d * q' + d * (q - q');
      MulAtLeast(d, q - q');
    } else if q' > q {
      assert d * q' == d * q + d * (q' - q);
      MulAtLeast(d, q' - q);
    }
  }

  /** Rounding down to a multiple of `d` gives the least number with the same quotient. */
  lemma RoundDown(v: nat, w: nat, d: nat)
    requires d >= 1 && v / d == w / d
    ensures RoundedDown(v, d) / d == v / d && RoundedDown(v, d) <= w
  {
    var q := v / d;
    assert w == d * q + w % d;
    DivOfMul(q, d);
  }

  lemma ValueOfNetworkAddr(c: Cidr)
    requires c.prefix <= 32
    ensures Value(NetworkAddr(c)) == RoundedDown(Value(c.addr), Span(c))
  {
    ValueBound(c.addr);
    assert Pow256(4) == 0x1_0000_0000;
    ValueOfEncode(4, RoundedDown(Value(c.addr), Span(c)));
  }

  /** The network address lies in the subnet and below every address of it. */
  lemma NetworkAddrIsLowest(c: Cidr, b: Addr4)
    requires c.prefix <= 32
    requires InSubnet(c, b)
    ensures InSubnet(c, NetworkAddr(c)) && Value(NetworkAddr(c)) <= Value(b)
  {
    ValueOfNetworkAddr(c);
    RoundDown(Value(c.addr), Value(b), Span(c));
  }

  /** `IPNet.String`: the network address and the prefix length. */
  function SubnetString(c: Cidr): string
    requires c.prefix <= 32
  {
    Dotted(NetworkAddr(c)) + "/" + Decimal(c.prefix)
  }

  /** The key an existing interface blocks: `net.IP.String` of its parsed address, "<nil>" when unparsable. */
  function IfaceKey(a: Option<Addr4>): string {
    match a
    case Some(x) => Dotted(x)
    case None => "<nil>"
  }

  /** The set of `f`'s values over the elements of `s`. */
  function ImageSet<T>(s: seq<T>, f: T -> string): set<string> {
    if s == [] then {} else ImageSet(s[..|s| - 1], f) + {f(s[|s| - 1])}
  }

  /** The addresses kept out of the pool: the CIDR's own address, the gateway and every existing interface. */
  function BlockedKeys(base: Addr4, gateway: string, existing: seq<Option<Addr4>>): set<string> {
    {Dotted(base), gateway} + ImageSet(existing, IfaceKey)
  }

  lemma {:induction false} ImageSetMembers<T>(s: seq<T>, f: T -> string, k: string)
    ensures k in ImageSet(s, f) <==> exists i :: 0 <= i < |s| && f(s[i]) == k
  {
    if s != [] {
      var n := |s| - 1;
      ImageSetMembers(s[..n], f, k);
      if exists i :: 0 <= i < n && f(s[..n][i]) == k {
        var i :| 0 <= i < n && f(s[..n][i]) == k;
        assert s[i] == s[..n][i];
      }
      if exists i :: 0 <= i < |s| && f(s[i]) == k {
        var i :| 0 <= i < |s| && f(s[i]) == k;
        if i < n {
          assert s[..n][i] == s[i];
        }
      }
    }
  }

  /** A key is blocked exactly when it is the base address, the gateway or an existing interface's. */
  lemma BlockedKeysMembers(base: Addr4, gateway: string, existing: seq<Option<Addr4>>, k: string)
    ensures k in BlockedKeys(base, gateway, existing) <==>
      k == Dotted(base) || k == gateway || exists i :: 0 <= i < |existing| && IfaceKey(existing[i]) == k
  {
    ImageSetMembers(existing, IfaceKey, k);
  }

  /** The loop of `ConfigureNetworkInterface` that fills the blocked set. */
  method BlockedAddresses(base: Addr4, gateway: string, existing: seq<Option<Addr4>>)
    returns (blocked: set<string>)
    ensures blocked == BlockedKeys(base, gateway, existing)
  {
    blocked := {};
    blocked := blocked + {Dotted(base)};
    blocked := blocked + {gateway};
    for i := 0 to |existing|
      invariant blocked == {Dotted(base), gateway} + ImageSet(existing[..i], IfaceKey)
    {
      assert existing[..i + 1][..i] == existing[..i];
      blocked := blocked + {IfaceKey(existing[i])};
    }
    assert existing[..|existing|] == existing;
  }

  /** `a` is the first free address of the subnet at or above the CIDR's own address. */
  ghost predicate FirstFit(c: Cidr, blocked: set<string>, a: Addr4)
    requires c.prefix <= 32
  {
    && InSubnet(c, a)
    && Value(c.addr) <= Value(a)
    && Dotted(a) !in blocked
    && forall b: Addr4 :: Value(c.addr) <= Value(b) < Value(a) ==> Dotted(b) in blocked
  }

  /** Every address of the subnet at or above the CIDR's own address is blocked. */
  ghost predicate Exhausted(c: Cidr, blocked: set<string>)
    requires c.prefix <= 32
  {
    forall b: Addr4 :: InSubnet(c, b) && Value(c.addr) <= Value(b) ==> Dotted(b) in blocked
  }

  /** There is at most one first fit, and none when the subnet is exhausted. */
  lemma FirstFitUnique(c: Cidr, blocked: set<string>, a: Addr4, b: Addr4)
    requires c.prefix <= 32
    requires FirstFit(c, blocked, a)
    ensures FirstFit(c, blocked, b) ==> a == b
    ensures !Exhausted(c, blocked)
  {
    if FirstFit(c, blocked, b) {
      ValueInjective(a, b);
    }
  }

  /** Where the walk stands: the IPv4 value, or 2^32 once it has left the IPv4 range. */
  function Position(ip: seq<byte>): nat {
    match To4(ip)
    case Some(a) => Value(a)
    case None => 0x1_0000_0000
  }

  /** The first-fit loop of `ConfigureNetworkInterface`. */
  method FindFreeAddress(c: Cidr, blocked: set<string>) returns (r: Option<Addr4>)
    requires c.prefix <= 32
    ensures r.Some? ==> FirstFit(c, blocked, r.value)
    ensures r.None? ==> Exhausted(c, blocked)
  {
    assert Pow256(4) == 0x1_0000_0000;
    ValueBound(c.addr);
    var ip := V4InV6Prefix + c.addr;
    assert ip[..12] == V4InV6Prefix && ip[12..] == c.addr;
    while Contains(c, ip)
      invariant |ip| == 16
      invariant Value(c.addr) <= Position(ip) <= 0x1_0000_0000
      invariant forall b: Addr4 :: Value(c.addr) <= Value(b) < Position(ip) ==> Dotted(b) in blocked
      decreases 0x1_0000_0000 - Position(ip)
    {
      var a := To4(ip).value;
      if Dotted(a) !in blocked {
        break;
      }
      WalkStep(c, blocked, ip, a);
      ip := Inc(ip);
    }
    if !Contains(c, ip) {
      WalkExhausted(c, blocked, ip);
      return None;
    }
    return Some(To4(ip).value);
  }

  /** One step of the walk past a blocked address keeps the loop invariant and advances. */
  lemma WalkStep(c: Cidr, blocked: set<string>, ip: seq<byte>, a: Addr4)
    requires c.prefix <= 32 && |ip| == 16 && To4(ip) == Some(a) && Dotted(a) in blocked
    requires forall b: Addr4 :: Value(c.addr) <= Value(b) < Value(a) ==> Dotted(b) in blocked
    ensures |Incremented(ip)| == 16 && Position(ip) < Position(Incremented(ip)) <= 0x1_0000_0000
    ensures forall b: Addr4 :: Value(c.addr) <= Value(b) < Position(Incremented(ip)) ==> Dotted(b) in blocked
  {
    assert Pow256(4) == 0x1_0000_0000;
    ValueBound(a);
    forall b: Addr4 | Value(b) == Value(a)
      ensures b == a
    {
      ValueInjective(a, b);
    }
    if AllMax(a) {
      IncrementedAppendCarry(V4InV6Prefix, a);
      AllMaxValue(a);
      assert Incremented(V4InV6Prefix)[11] == 0;
      assert To4(Incremented(ip)) == None;
      forall b: Addr4 | Value(c.addr) <= Value(b) < Position(Incremented(ip))
        ensures Dotted(b) in blocked
      {
        ValueBound(b);
      }
    } else {
      IncrementedAppend(V4InV6Prefix, a);
      IncrementedNoWrap(a);
      var n := Incremented(ip);
      assert n[..12] == V4InV6Prefix && n[12..] == Incremented(a);
    }
  }

  /** A walk that leaves the subnet has seen every address above the base blocked. */
  lemma WalkExhausted(c: Cidr, blocked: set<string>, ip: seq<byte>)
    requires c.prefix <= 32 && |ip| == 16 && !Contains(c, ip)
    requires Value(c.addr) <= Position(ip)
    requires forall b: Addr4 :: Value(c.addr) <= Value(b) < Position(ip) ==> Dotted(b) in blocked
    ensures Exhausted(c, blocked)
  {
    forall b: Addr4 | InSubnet(c, b) && Value(c.addr) <= Value(b)
      ensures Dotted(b) in blocked
    {
      ValueBound(b);
      assert Pow256(4) == 0x1_0000_0000;
      if Value(b) >= Position(ip) {
        var a := To4(ip).value;
        DivMonotone(Value(c.addr), Value(a), Span(c));
        DivMonotone(Value(a), Value(b), Span(c));
        assert false;
      }
    }
  }

  /** `net.HardwareAddr.String`: lower-case hexadecimal bytes joined by ':'. */
  function HardwareAddrString(b: seq<byte>): (s: string)
    ensures |b| >= 1 ==> |s| == 3 * |b| - 1
  {
    if |b| == 0 then ""
    else if |b| == 1 then Hex2(b[0])
    else Hex2(b[0]) + ":" + HardwareAddrString(b[1..])
  }

  /** Byte `i` of the address prints as the two hex digits at 3i, followed by ':' unless it is the last. */
  lemma {:induction false} HardwareAddrGroups(b: seq<byte>)
    ensures forall i :: 0 <= i < |b| ==>
      3 * i + 2 <= |HardwareAddrString(b)| && HardwareAddrString(b)[3 * i..3 * i + 2] == Hex2(b[i])
    ensures forall i :: 0 <= i < |b| - 1 ==> HardwareAddrString(b)[3 * i + 2] == ':'
  {
    if |b| > 1 {
      var s := HardwareAddrString(b);
      var rest := HardwareAddrString(b[1..]);
      HardwareAddrGroups(b[1..]);
      assert s == Hex2(b[0]) + ":" + rest;
      assert s[..2] == Hex2(b[0]);
      forall i | 1 <= i < |b|
        ensures s[3 * i..3 * i + 2] == Hex2(b[i])
      {
        assert b[1..][i - 1] == b[i];
        assert s[3 * i..3 * i + 2] == rest[3 * (i - 1)..3 * (i - 1) + 2];
      }
      forall i | 1 <= i < |b| - 1
        ensures s[3 * i + 2] == ':'
      {
        assert s[3 * i + 2] == rest[3 * (i - 1) + 2];
      }
    }
  }

  /** Locally administered QEMU/KVM prefix of every generated MAC address. */
  const MacPrefix: seq<byte> := [0x52, 0x54, 0x00]

  /** The errors `ConfigureNetworkInterface` returns, in the order it checks for them. */
  datatype AllocError =
    | HwAddrFailed(cause: string)
    | InterfacesFailed(cause: string)
    | SubnetUnparsable(cause: string)
    | SubnetFull(subnet: string)

  function ErrorMessage(e: AllocError): string {
    match e
    case HwAddrFailed(cause) => "generate hwaddr: " + cause
    case InterfacesFailed(cause) => "retrieve interfaces: " + cause
    case SubnetUnparsable(cause) => "parse subnet: " + cause
    case SubnetFull(subnet) => "no capacity available: subnet " + subnet + " is full"
  }

  /**
   * `ConfigureNetworkInterface`. The random bytes, the database's interfaces on the network
   * (each as its parsed IPv4 address, or None where that did not parse) and the parsed
   * subnet of the network are inputs, each with the error its source may report.
   */
  method ConfigureNetworkInterface(network: Network, random: Result<seq<byte>, string>,
                                   existing: Result<seq<Option<Addr4>>, string>,
                                   subnet: Result<Cidr, string>)
    returns (r: Result<NetworkInterface, AllocError>)
    requires random.Success? ==> |random.value| == 3
    requires subnet.Success? ==> subnet.value.prefix <= 32
    ensures random.Failure? ==> r == Failure(HwAddrFailed(random.error))
    ensures random.Success? && existing.Failure? ==> r == Failure(InterfacesFailed(existing.error))
    ensures random.Success? && existing.Success? && subnet.Failure? ==>
      r == Failure(SubnetUnparsable(subnet.error))
    ensures random.Success? && existing.Success? && subnet.Success? ==>
      var c := subnet.value;
      var blocked := BlockedKeys(c.addr, network.ipv4.gateway, existing.value);
      && (r.Success? ==> exists a :: (FirstFit(c, blocked, a) &&
            r.value == NetworkInterface(network, Dotted(a) + "/" + Decimal(c.prefix), "",
                                        HardwareAddrString(MacPrefix + random.value))))
      && (r.Failure? ==> r.error == SubnetFull(SubnetString(c)) && Exhausted(c, blocked))
  {
    if random.Failure? {
      return Failure(HwAddrFailed(random.error));
    }
    var hwAddr := HardwareAddrString(MacPrefix + random.value);
    if existing.Failure? {
      return Failure(InterfacesFailed(existing.error));
    }
    if subnet.Failure? {
      return Failure(SubnetUnparsable(subnet.error));
    }
    var c := subnet.value;
    var blocked := BlockedAddresses(c.addr, network.ipv4.gateway, existing.value);
    var found := FindFreeAddress(c, blocked);
    if found.None? {
      return Failure(SubnetFull(SubnetString(c)));
    }
    var ipv4 := Dotted(found.value) + "/" + Decimal(c.prefix);
    return Success(NetworkInterface(network, ipv4, "", hwAddr));
  }

  /**
   * The allocated address is none of those kept out of the pool: not the CIDR's own
   * address, not the gateway and no existing interface's.
   */
  lemma AllocatedIsFree(c: Cidr, gateway: string, existing: seq<Option<Addr4>>, a: Addr4)
    requires c.prefix <= 32
    requires FirstFit(c, BlockedKeys(c.addr, gateway, existing), a)
    ensures a != c.addr && Dotted(a) != gateway
    ensures forall i :: 0 <= i < |existing| ==> existing[i] != Some(a)
  {
    forall i | 0 <= i < |existing|
      ensures existing[i] != Some(a)
    {
      BlockedKeysMembers(c.addr, gateway, existing, IfaceKey(existing[i]));
    }
  }
}
