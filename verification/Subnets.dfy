/** Subnet ranges of the container network: validation of the settings and the walk over the subnets.

    Addresses are numbers below 2^bits; IPv4 and IPv6 differ in width, in the default subnet length and in
    whether address arithmetic stops at the ends of the address space.
 */
module Subnets {
  import opened Wrappers

  datatype Family = Family(bits: nat, defaultLen: nat, saturating: bool)

  const V4 := Family(32, 24, false)
  const V6 := Family(128, 64, true)

  datatype Network = Network(ip: nat, prefix: nat)

  datatype Settings = Settings(network: Option<Network>, len: nat, min: Option<nat>, max: Option<nat>)

  datatype Verdict =
    | Fine
    | NoNetwork
    | LenTooLong
    | TooFewSubnets
    | NetworkTooSmall
    | OutOfAddresses
    | MinOutside
    | MaxOutside
    | MinOffBoundary
    | MaxOffBoundary

  function Pow2(n: nat): nat
    ensures Pow2(n) >= 1
  {
    if n == 0 then 1 else 2 * Pow2(n - 1)
  }

  /** Addresses a prefix leaves open. */
  function Span(f: Family, prefix: nat): (r: nat)
    ensures r >= 1
  {
    if prefix <= f.bits then Pow2(f.bits - prefix) else 1
  }

  predicate IsNetwork(f: Family, n: Network) {
    n.prefix <= f.bits && n.ip < Pow2(f.bits)
  }

  /** A number with the low bits cleared that a block of m addresses counts. */
  function Floor(x: nat, m: nat): (r: nat)
    requires m > 0
    ensures r <= x < r + m
  {
    MulNonNegative(x / m, m);
    x / m * m
  }

  lemma MulNonNegative(a: nat, b: nat)
    ensures a * b >= 0
  {
  }

  lemma MulMonotonic(a: nat, b: nat, m: nat)
    requires a <= b
    ensures a * m <= b * m
  {
    MulNonNegative(b - a, m);
    assert b * m == a * m + (b - a) * m;
  }

  lemma FloorOfMultiple(q: nat, m: nat)
    requires m > 0
    ensures q * m >= 0 && Floor(q * m, m) == q * m
  {
    MulNonNegative(q, m);
    var d := q * m / m;
    assert d * m <= q * m < d * m + m;
    assert d == q;
  }

  function Base(f: Family, n: Network): nat { Floor(n.ip, Span(f, n.prefix)) }

  function End(f: Family, n: Network): nat { Base(f, n) + Span(f, n.prefix) }

  predicate Contains(f: Family, n: Network, ip: nat) { Base(f, n) <= ip < End(f, n) }

  /** IPv4 addition and subtraction fail out of range, IPv6 stops at the end. */
  function Add(f: Family, ip: nat, n: nat): Option<nat> {
    if ip + n < Pow2(f.bits) then Some(ip + n) else if f.saturating then Some(Pow2(f.bits) - 1) else None
  }

  function Sub(f: Family, ip: nat, n: nat): Option<nat> {
    if ip >= n then Some(ip - n) else if f.saturating then Some(0) else None
  }

  // ---------- Validation ----------

  function ChooseLen(f: Family, prefix: nat, len: nat): (nat, Verdict) {
    if len > 0 then
      (len, if len > f.bits - 2 then LenTooLong else if len < prefix + 2 then TooFewSubnets else Fine)
    else if prefix > f.bits - 4 then (len, NetworkTooSmall)
    else if prefix <= f.defaultLen - 2 then (f.defaultLen, Fine)
    else (prefix + 2, Fine)
  }

  function ChooseMin(f: Family, n: Network, min: Option<nat>, size: nat): (Option<nat>, Verdict) {
    if min.Some? then (min, if Contains(f, n, min.value) then Fine else MinOutside)
    else
      var ip := Add(f, n.ip, size);
      (ip, if ip.Some? then Fine else OutOfAddresses)
  }

  function ChooseMax(f: Family, n: Network, max: Option<nat>, size: nat): (Option<nat>, Verdict) {
    if max.Some? then (max, if Contains(f, n, max.value) then Fine else MaxOutside)
    else
      var next := Add(f, End(f, n) - 1, 1);
      var ip := if next.Some? then Sub(f, next.value, size) else None;
      (ip, if ip.Some? then Fine else OutOfAddresses)
  }

  /** Settings are completed step by step; an error keeps what was filled in before it. */
  function Validate(f: Family, s: Settings): (Settings, Verdict) {
    if s.network.None? then (s, NoNetwork)
    else
      var n := s.network.value;
      var (len, v1) := ChooseLen(f, n.prefix, s.len);
      if !v1.Fine? then (s, v1)
      else
        var s1 := s.(len := len);
        var size := Span(f, len);
        var (min, v2) := ChooseMin(f, n, s.min, size);
        if !v2.Fine? then (s1, v2)
        else
          var s2 := s1.(min := min);
          var (max, v3) := ChooseMax(f, n, s.max, size);
          if !v3.Fine? then (s2, v3)
          else
            var s3 := s2.(max := max);
            (s3, if Floor(min.value, size) != min.value then MinOffBoundary
             else if Floor(max.value, size) != max.value then MaxOffBoundary
             else Fine)
  }

  class NetworkConfig {
    var enableIpv4: bool
    var enableIpv6: bool
    var ipv4: Settings
    var ipv6: Settings

    constructor (enableIpv4: bool, enableIpv6: bool, ipv4: Settings, ipv6: Settings)
      ensures this.enableIpv4 == enableIpv4 && this.enableIpv6 == enableIpv6 && this.ipv4 == ipv4 && this.ipv6 == ipv6
    {
      this.enableIpv4, this.enableIpv6, this.ipv4, this.ipv6 := enableIpv4, enableIpv6, ipv4, ipv6;
    }

    method ValidateIpv4() returns (v: Verdict)
      modifies this`ipv4
      ensures (ipv4, v) == Validate(V4, old(ipv4))
    {
      hide Pow2, Floor;
      if ipv4.network.None? {
        return NoNetwork;
      }
      var net := ipv4.network.value;
      if ipv4.len > 0 {
        if ipv4.len > 30 {
          return LenTooLong;
        }
        if ipv4.len < net.prefix + 2 {
          return TooFewSubnets;
        }
      } else if net.prefix > 28 {
        return NetworkTooSmall;
      } else if net.prefix <= 22 {
        ipv4 := ipv4.(len := 24);
      } else {
        ipv4 := ipv4.(len := net.prefix + 2);
      }
      var size := Pow2(32 - ipv4.len);
      if ipv4.min.Some? {
        if !Contains(V4, net, ipv4.min.value) {
          return MinOutside;
        }
      } else if net.ip + size >= Pow2(32) {
        return OutOfAddresses;
      } else {
        ipv4 := ipv4.(min := Some(net.ip + size));
      }
      if ipv4.max.Some? {
        if !Contains(V4, net, ipv4.max.value) {
          return MaxOutside;
        }
      } else if End(V4, net) >= Pow2(32) || End(V4, net) < size {
        return OutOfAddresses;
      } else {
        ipv4 := ipv4.(max := Some(End(V4, net) - size));
      }
      if Floor(ipv4.min.value, size) != ipv4.min.value {
        return MinOffBoundary;
      }
      if Floor(ipv4.max.value, size) != ipv4.max.value {
        return MaxOffBoundary;
      }
      v := Fine;
    }

    method ValidateIpv6() returns (v: Verdict)
      modifies this`ipv6
      ensures (ipv6, v) == Validate(V6, old(ipv6))
    {
      hide Pow2, Floor;
      if ipv6.network.None? {
        return NoNetwork;
      }
      var net := ipv6.network.value;
      if ipv6.len > 0 {
        if ipv6.len > 126 {
          return LenTooLong;
        }
        if ipv6.len < net.prefix + 2 {
          return TooFewSubnets;
        }
      } else if net.prefix > 124 {
        return NetworkTooSmall;
      } else if net.prefix <= 62 {
        ipv6 := ipv6.(len := 64);
      } else {
        ipv6 := ipv6.(len := net.prefix + 2);
      }
      var size := Pow2(128 - ipv6.len);
      if ipv6.min.Some? {
        if !Contains(V6, net, ipv6.min.value) {
          return MinOutside;
        }
      } else {
        ipv6 := ipv6.(min := Add(V6, net.ip, size));
      }
      if ipv6.max.Some? {
        if !Contains(V6, net, ipv6.max.value) {
          return MaxOutside;
        }
      } else {
        var next := Add(V6, End(V6, net) - 1, 1);
        ipv6 := ipv6.(max := Sub(V6, next.value, size));
      }
      if Floor(ipv6.min.value, size) != ipv6.min.value {
        return MinOffBoundary;
      }
      if Floor(ipv6.max.value, size) != ipv6.max.value {
        return MaxOffBoundary;
      }
      v := Fine;
    }

    /** IPv6 settings are looked at only when the IPv4 ones are fine. */
    method ValidateNetworkConfig() returns (v: Verdict)
      modifies this`ipv4, this`ipv6
      ensures ipv4 == if enableIpv4 then Validate(V4, old(ipv4)).0 else old(ipv4)
      ensures var v4 := if enableIpv4 then Validate(V4, old(ipv4)).1 else Fine;
              if v4.Fine? && enableIpv6 then (ipv6, v) == Validate(V6, old(ipv6)) else ipv6 == old(ipv6) && v == v4
    {
      hide Validate;
      v := Fine;
      if enableIpv4 {
        v := ValidateIpv4();
        if !v.Fine? {
          return;
        }
      }
      if enableIpv6 {
        v := ValidateIpv6();
      }
    }
  }
}
