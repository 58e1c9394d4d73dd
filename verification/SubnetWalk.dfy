/** What validation accepts, and the walk from the lowest to the highest subnet. */
module SubnetWalk {
  import opened Wrappers
  import opened Subnets

  // ---------- Blocks ----------

  lemma {:induction false} Pow2Add(a: nat, b: nat)
    ensures Pow2(a + b) == Pow2(a) * Pow2(b)
  {
    if a > 0 {
      Pow2Add(a - 1, b);
      assert Pow2(a + b) == 2 * Pow2(a - 1 + b) && Pow2(a) == 2 * Pow2(a - 1);
    }
  }

  /** A network consists of whole subnets. */
  lemma SpanSplit(f: Family, prefix: nat, len: nat)
    requires prefix <= len <= f.bits
    ensures Span(f, prefix) == Pow2(len - prefix) * Span(f, len)
  {
    Pow2Add(len - prefix, f.bits - len);
  }

  predicate OnBoundary(x: nat, m: nat)
    requires m > 0
  {
    Floor(x, m) == x
  }

  lemma BoundaryOf(q: nat, m: nat, x: nat)
    requires m > 0 && x == q * m
    ensures OnBoundary(x, m)
  {
    FloorOfMultiple(q, m);
  }

  lemma QuotientOf(x: nat, m: nat) returns (q: nat)
    requires m > 0 && OnBoundary(x, m)
    ensures x == q * m
  {
    q := x / m;
  }

  /** Boundaries are a block apart. */
  lemma NextBoundary(x: nat, y: nat, m: nat)
    requires m > 0 && OnBoundary(x, m) && OnBoundary(y, m)
    ensures OnBoundary(x + m, m) && (x < y ==> x + m <= y) && (x >= m ==> OnBoundary(x - m, m))
  {
    var p := QuotientOf(x, m);
    var q := QuotientOf(y, m);
    BoundaryOf(p + 1, m, x + m);
    if x < y {
      if q <= p {
        MulMonotonic(q, p, m);
        assert false;
      }
      MulMonotonic(p + 1, q, m);
    }
    if x >= m {
      assert p >= 1;
      BoundaryOf(p - 1, m, x - m);
    }
  }

  /** The address before a boundary is not on one. */
  lemma BeforeBoundary(x: nat, m: nat)
    requires m >= 2 && OnBoundary(x, m) && x > 0
    ensures !OnBoundary(x - 1, m)
  {
    if OnBoundary(x - 1, m) {
      NextBoundary(x - 1, x, m);
    }
  }

  lemma CoarserBoundary(x: nat, k: nat, m: nat)
    requires m > 0 && k > 0 && k * m > 0 && OnBoundary(x, k * m)
    ensures OnBoundary(x, m)
  {
    var q := QuotientOf(x, k * m);
    MulNonNegative(q, k);
    assert x == (q * k) * m;
    BoundaryOf(q * k, m, x);
  }

  // ---------- Which settings are accepted ----------

  predicate Standard(f: Family) { 4 <= f.bits && 2 <= f.defaultLen <= f.bits - 2 }

  lemma BothStandard()
    ensures Standard(V4) && Standard(V6)
  {
  }

  /** The length is usable: given within bounds, or left out for a network that is large enough. */
  predicate LenUsable(f: Family, prefix: nat, len: nat) {
    if len > 0 then prefix + 2 <= len <= f.bits - 2 else prefix <= f.bits - 4
  }

  /** The length in use: the given one; else the default, or two bits more than the network has where that is longer. */
  function LenInUse(f: Family, prefix: nat, len: nat): nat {
    if len > 0 then len else if prefix + 2 <= f.defaultLen then f.defaultLen else prefix + 2
  }

  lemma ChooseLenBounds(f: Family, prefix: nat, len: nat)
    requires Standard(f)
    ensures ChooseLen(f, prefix, len).1.Fine? <==> LenUsable(f, prefix, len)
    ensures LenUsable(f, prefix, len) ==> ChooseLen(f, prefix, len).0 == LenInUse(f, prefix, len)
    ensures LenUsable(f, prefix, len) ==> prefix + 2 <= LenInUse(f, prefix, len) <= f.bits - 2
  {
  }

  lemma SizeAtLeastFour(f: Family, len: nat)
    requires len <= f.bits - 2
    ensures Span(f, len) >= 4
  {
    assert Pow2(f.bits - len) == 2 * Pow2(f.bits - len - 1) && Pow2(f.bits - len - 1) == 2 * Pow2(f.bits - len - 2);
  }

  /** A network starts and ends on subnet boundaries inside the address space. */
  lemma NetworkBoundaries(f: Family, n: Network, len: nat)
    requires IsNetwork(f, n) && n.prefix <= len <= f.bits
    ensures var m := Span(f, len);
            && OnBoundary(Base(f, n), m) && OnBoundary(End(f, n), m) && OnBoundary(Pow2(f.bits), m)
            && n.ip < End(f, n) <= Pow2(f.bits)
  {
    hide Pow2, Floor;
    var m, big := Span(f, len), Span(f, n.prefix);
    SpanSplit(f, n.prefix, len);
    SpanSplit(f, 0, n.prefix);
    SpanSplit(f, 0, len);
    BaseOnBoundary(n.ip, big);
    BoundaryOf(Pow2(n.prefix), big, Pow2(f.bits));
    BoundaryOf(Pow2(len), m, Pow2(f.bits));
    NextBoundary(Base(f, n), Pow2(f.bits), big);
    CoarserBoundary(Base(f, n), Pow2(len - n.prefix), m);
    CoarserBoundary(End(f, n), Pow2(len - n.prefix), m);
  }

  lemma BaseOnBoundary(x: nat, m: nat)
    requires m > 0
    ensures OnBoundary(Floor(x, m), m)
  {
    BoundaryOf(x / m, m, Floor(x, m));
  }

  /** The lowest subnet is given on a boundary in the network, or left out and the one after a network address
      on a boundary exists. */
  predicate MinFits(f: Family, n: Network, min: Option<nat>, size: nat)
    requires size > 0
  {
    match min
    case Some(ip) => Contains(f, n, ip) && OnBoundary(ip, size)
    case None => OnBoundary(n.ip, size) && n.ip + size < Pow2(f.bits)
  }

  /** The highest subnet is given likewise, or left out and the network does not end the address space. */
  predicate MaxFits(f: Family, n: Network, max: Option<nat>, size: nat)
    requires size > 0
  {
    match max
    case Some(ip) => Contains(f, n, ip) && OnBoundary(ip, size)
    case None => End(f, n) < Pow2(f.bits)
  }

  /** A completed range: the subnet length, the lowest and the highest subnet. */
  datatype Range = Range(len: nat, min: nat, max: nat)

  /** The range validation completes, if it accepts the settings. */
  function Accepted(f: Family, n: Network, len: nat, min: Option<nat>, max: Option<nat>): Option<Range> {
    var (t, v) := Validate(f, Settings(Some(n), len, min, max));
    if v.Fine? && t.min.Some? && t.max.Some? then Some(Range(t.len, t.min.value, t.max.value)) else None
  }

  /** Which settings are accepted, whether the ends of the range are given or not, and with which range.  The
      order of the ends is not looked at. */
  lemma AcceptedExactly(f: Family, n: Network, len: nat, min: Option<nat>, max: Option<nat>)
    requires Standard(f) && IsNetwork(f, n)
    ensures var size := Span(f, LenInUse(f, n.prefix, len));
            && (Validate(f, Settings(Some(n), len, min, max)).1.Fine? <==> Accepted(f, n, len, min, max).Some?)
            && (Accepted(f, n, len, min, max).Some? <==>
                LenUsable(f, n.prefix, len) && MinFits(f, n, min, size) && MaxFits(f, n, max, size))
    ensures match Accepted(f, n, len, min, max)
            case None => true
            case Some(r) =>
              var size := Span(f, r.len);
              && (len > 0 ==> r.len == len)
              && (len == 0 ==> r.len == if n.prefix + 2 <= f.defaultLen then f.defaultLen else n.prefix + 2)
              && n.prefix + 2 <= r.len <= f.bits - 2
              && r.min == (if min.Some? then min.value else n.ip + size)
              && r.max + (if max.Some? then 0 else size) == (if max.Some? then max.value else End(f, n))
              && OnBoundary(r.min, size) && OnBoundary(r.max, size) && r.min < Pow2(f.bits) && r.max < Pow2(f.bits)
  {
    hide Pow2, Floor, Span, Base;
    ChooseLenBounds(f, n.prefix, len);
    if LenUsable(f, n.prefix, len) {
      var l := LenInUse(f, n.prefix, len);
      var m := Span(f, l);
      SizeAtLeastFour(f, l);
      NetworkBoundaries(f, n, l);
      SpaceIsLarger(f, l);
      BoundaryOf(0, m, 0);
      NextBoundary(0, End(f, n), m);
      MinBoundary(f, n, m);
      MaxBoundary(f, n, m);
    }
  }

  /** An address is in a network exactly when its prefix bits are the network's. */
  lemma ContainsExactly(f: Family, n: Network, ip: nat)
    ensures Contains(f, n, ip) <==> ip / Span(f, n.prefix) == n.ip / Span(f, n.prefix)
  {
    hide Pow2, Floor, Span;
    var m := Span(f, n.prefix);
    var a, b := ip / m, n.ip / m;
    FloorIs(ip, m);
    FloorIs(n.ip, m);
    if a < b {
      MulMonotonic(a + 1, b, m);
      OneMore(a + 1, m);
    } else if b < a {
      MulMonotonic(b + 1, a, m);
      OneMore(b + 1, m);
    }
  }

  lemma FloorIs(x: nat, m: nat)
    requires m > 0
    ensures Floor(x, m) == x / m * m && Floor(x, m) <= x < Floor(x, m) + m
  {
  }

  /** Ends that were given and accepted have the network's prefix bits. */
  lemma GivenEndsInNetwork(f: Family, n: Network, len: nat, min: Option<nat>, max: Option<nat>)
    requires Standard(f) && IsNetwork(f, n) && Accepted(f, n, len, min, max).Some?
    ensures min.Some? ==> min.value / Span(f, n.prefix) == n.ip / Span(f, n.prefix)
    ensures max.Some? ==> max.value / Span(f, n.prefix) == n.ip / Span(f, n.prefix)
  {
    hide Pow2, Floor, Span, Accepted, Contains, OnBoundary;
    AcceptedExactly(f, n, len, min, max);
    if min.Some? {
      ContainsExactly(f, n, min.value);
    }
    if max.Some? {
      ContainsExactly(f, n, max.value);
    }
  }

  /** Which complaint is made: the first that applies, in this order. */
  lemma RefusedExactly(f: Family, n: Network, len: nat, min: Option<nat>, max: Option<nat>)
    requires Standard(f) && IsNetwork(f, n)
    ensures var v := Validate(f, Settings(Some(n), len, min, max)).1;
            var size := Span(f, LenInUse(f, n.prefix, len));
            var (inRange, top) := (LenUsable(f, n.prefix, len), Pow2(f.bits));
            var minThere := inRange && (if min.Some? then Contains(f, n, min.value) else f.saturating || n.ip + size < top);
            var maxThere := minThere && (if max.Some? then Contains(f, n, max.value) else f.saturating || End(f, n) < top);
            && (v.LenTooLong? <==> len > f.bits - 2)
            && (v.TooFewSubnets? <==> 0 < len <= f.bits - 2 && len < n.prefix + 2)
            && (v.NetworkTooSmall? <==> len == 0 && n.prefix > f.bits - 4)
            && (v.MinOutside? <==> inRange && !minThere && min.Some?)
            && (v.MaxOutside? <==> minThere && !maxThere && max.Some?)
            && (v.OutOfAddresses? <==> (inRange && !minThere && min.None?) || (minThere && !maxThere && max.None?))
            && (v.MinOffBoundary? <==> maxThere && !MinFits(f, n, min, size))
            && (v.MaxOffBoundary? <==> maxThere && MinFits(f, n, min, size) && !MaxFits(f, n, max, size))
  {
    hide Pow2, Floor, Span, Base;
    ChooseLenBounds(f, n.prefix, len);
    if LenUsable(f, n.prefix, len) {
      var l := LenInUse(f, n.prefix, len);
      var m := Span(f, l);
      SizeAtLeastFour(f, l);
      NetworkBoundaries(f, n, l);
      SpaceIsLarger(f, l);
      BoundaryOf(0, m, 0);
      NextBoundary(0, End(f, n), m);
      MinBoundary(f, n, m);
      MaxBoundary(f, n, m);
    }
  }

  /** What a refusal leaves in the settings: the network and the ends that were given, and the length in use once it was
      found usable. */
  lemma RefusedKeeps(f: Family, s: Settings)
    requires Standard(f)
    ensures var t := Validate(f, s).0;
            && t.network == s.network && (s.min.Some? ==> t.min == s.min) && (s.max.Some? ==> t.max == s.max)
            && (Validate(f, s).1.NoNetwork? <==> s.network.None?)
            && (s.network.None? ==> t == s)
            && (s.network.Some? ==>
                  t.len == if LenUsable(f, s.network.value.prefix, s.len) then LenInUse(f, s.network.value.prefix, s.len) else s.len)
  {
    hide Pow2, Floor, Span, Base;
    if s.network.Some? {
      ChooseLenBounds(f, s.network.value.prefix, s.len);
    }
  }

  lemma SpaceIsLarger(f: Family, len: nat)
    requires 1 <= len <= f.bits
    ensures Span(f, len) < Pow2(f.bits)
  {
    hide Pow2;
    SpanSplit(f, 0, len);
    Pow2AtLeastTwo(len);
    MulMonotonic(2, Pow2(len), Span(f, len));
  }

  lemma Pow2AtLeastTwo(n: nat)
    requires n >= 1
    ensures Pow2(n) >= 2
  {
  }

  lemma MinBoundary(f: Family, n: Network, m: nat)
    requires m >= 4 && n.ip < Pow2(f.bits) && OnBoundary(Pow2(f.bits), m)
    ensures var ip := Add(f, n.ip, m);
            && (ip.Some? && OnBoundary(ip.value, m) <==> OnBoundary(n.ip, m) && n.ip + m < Pow2(f.bits))
            && (n.ip + m < Pow2(f.bits) ==> ip == Some(n.ip + m))
  {
    hide Pow2, Floor, Span, Base;
    if OnBoundary(n.ip, m) {
      NextBoundary(n.ip, Pow2(f.bits), m);
    }
    BeforeBoundary(Pow2(f.bits), m);
    if OnBoundary(n.ip + m, m) {
      NextBoundary(n.ip + m, n.ip + m, m);
    }
  }

  lemma MaxBoundary(f: Family, n: Network, m: nat)
    requires m >= 4 && n.ip < End(f, n) <= Pow2(f.bits) && OnBoundary(End(f, n), m) && OnBoundary(Pow2(f.bits), m)
    requires m <= End(f, n) && m < Pow2(f.bits)
    ensures var r := ChooseMax(f, n, None, m);
            && (r.1.Fine? && OnBoundary(r.0.value, m) <==> End(f, n) < Pow2(f.bits))
            && (End(f, n) < Pow2(f.bits) ==> r.0 == Some(End(f, n) - m))
  {
    hide Pow2, Floor, Span, Base;
    NextBoundary(End(f, n), End(f, n), m);
    if End(f, n) == Pow2(f.bits) {
      BeforeBoundary(Pow2(f.bits), m);
      NextBoundary(Pow2(f.bits), Pow2(f.bits), m);
      BeforeBoundary(Pow2(f.bits) - m, m);
    }
  }

  /** A range nobody gave lies in the network exactly when two subnets fit after the network address, so always
      when that is the base address. */
  lemma DefaultRange(f: Family, n: Network, len: nat, r: Range)
    requires Standard(f) && IsNetwork(f, n) && Accepted(f, n, len, None, None) == Some(r)
    ensures Contains(f, n, r.min) && r.min <= r.max <==> n.ip + 2 * Span(f, r.len) <= End(f, n)
    ensures Contains(f, n, r.max)
    ensures n.ip == Base(f, n) ==> n.ip + 4 * Span(f, r.len) <= End(f, n)
  {
    hide Pow2, Floor, Span, Accepted;
    AcceptedExactly(f, n, len, None, None);
    SizeAtLeastFour(f, r.len);
    FourSubnets(f, n.prefix, r.len);
  }

  lemma FourSubnets(f: Family, prefix: nat, len: nat)
    requires prefix + 2 <= len <= f.bits
    ensures Pow2(len - prefix) >= 4 && Span(f, prefix) >= 4 * Span(f, len)
  {
    SpanSplit(f, prefix, len);
    assert Pow2(len - prefix) == 2 * Pow2(len - prefix - 1) && Pow2(len - prefix - 1) == 2 * Pow2(len - prefix - 2);
    MulMonotonic(4, Pow2(len - prefix), Span(f, len));
  }

  // ---------- The walk ----------

  /** The following network of the same size, wrapping at the top; a prefix of 0 has no following network. */
  function NextNetwork(f: Family, n: Network): Option<Network> {
    if n.prefix == 0 then None else Some(Network((n.ip + Span(f, n.prefix)) % Pow2(f.bits), n.prefix))
  }

  /** Only the whole address space has no following network; the last network of a size is followed by the first. */
  lemma NextExactly(f: Family, n: Network)
    requires IsNetwork(f, n) && n.ip == Base(f, n)
    ensures NextNetwork(f, n).None? <==> n.prefix == 0
    ensures n.prefix > 0 ==>
            NextNetwork(f, n) == Some(Network(if End(f, n) == Pow2(f.bits) then 0 else End(f, n), n.prefix))
  {
    hide Pow2, Span, Floor;
    NetworkBoundaries(f, n, n.prefix);
    WrapsExactly(End(f, n), Pow2(f.bits));
  }

  lemma WrapsExactly(x: nat, m: nat)
    requires x <= m && m > 0
    ensures x % m == if x == m then 0 else x
  {
  }

  function Walk(f: Family, n: Network, steps: nat): Option<Network> {
    if steps == 0 then Some(n)
    else
      var before := Walk(f, n, steps - 1);
      if before.Some? then NextNetwork(f, before.value) else None
  }

  lemma {:induction false} WalkAdds(f: Family, n: Network, steps: nat)
    requires n.prefix >= 1 && n.ip + steps * Span(f, n.prefix) < Pow2(f.bits)
    ensures Walk(f, n, steps) == Some(Network(n.ip + steps * Span(f, n.prefix), n.prefix))
  {
    hide Pow2, Span, NextNetwork;
    if steps > 0 {
      var size := Span(f, n.prefix);
      OneMore(steps, size);
      WalkAdds(f, n, steps - 1);
      NextAdds(f, Network(n.ip + (steps - 1) * size, n.prefix));
    }
  }

  lemma OneMore(k: nat, m: nat)
    requires k > 0
    ensures 0 <= (k - 1) * m && k * m == (k - 1) * m + m
  {
    MulNonNegative(k - 1, m);
  }

  lemma NextAdds(f: Family, n: Network)
    requires n.prefix >= 1 && n.ip + Span(f, n.prefix) < Pow2(f.bits)
    ensures NextNetwork(f, n) == Some(Network(n.ip + Span(f, n.prefix), n.prefix))
  {
    hide Pow2, Span;
  }

  /** Between two subnet boundaries the walk takes (max - min) / size steps: it is at max exactly then, stays
      between them, and every step starts where the subnet before it ends. */
  lemma RangeIsWalked(f: Family, len: nat, min: nat, max: nat, i: nat)
    requires 1 <= len <= f.bits && min <= max < Pow2(f.bits)
    requires OnBoundary(min, Span(f, len)) && OnBoundary(max, Span(f, len))
    ensures var size := Span(f, len);
            var steps := (max - min) / size;
            i <= steps ==>
              && Walk(f, Network(min, len), i) == Some(Network(min + i * size, len))
              && min + i * size <= max && (min + i * size == max <==> i == steps)
  {
    hide Pow2, Floor, Span;
    var size := Span(f, len);
    var a := QuotientOf(min, size);
    var b := QuotientOf(max, size);
    StepsBetween(a, b, size);
    var steps: nat := b - a;
    assert steps == (max - min) / size;
    if i <= steps {
      MulMonotonic(i, steps, size);
      MulNonNegative(i, size);
      WalkAdds(f, Network(min, len), i);
      if i < steps {
        MulMonotonic(i + 1, steps, size);
        OneMore(i + 1, size);
      }
    }
  }

  lemma StepsBetween(a: nat, b: nat, m: nat)
    requires m > 0 && a * m <= b * m
    ensures a <= b && b * m - a * m == (b - a) * m && (b * m - a * m) / m == b - a
  {
    if a > b {
      MulMonotonic(b + 1, a, m);
      OneMore(b + 1, m);
    }
    assert b * m - a * m == (b - a) * m;
    QuotientExact((b - a) as nat, m);
  }

  lemma QuotientExact(q: nat, m: nat)
    requires m > 0
    ensures q * m / m == q
  {
    FloorOfMultiple(q, m);
    var d := q * m / m;
    if d < q {
      MulMonotonic(d + 1, q, m);
    } else if d > q {
      MulMonotonic(q + 1, d, m);
    }
  }

  /** Every accepted range with its ends in order is walked, whether its ends were given or not. */
  lemma AcceptedIsWalked(f: Family, n: Network, len: nat, min: Option<nat>, max: Option<nat>, r: Range, i: nat)
    requires Standard(f) && IsNetwork(f, n) && Accepted(f, n, len, min, max) == Some(r) && r.min <= r.max
    ensures var size := Span(f, r.len);
            var steps := (r.max - r.min) / size;
            i <= steps ==>
              && Walk(f, Network(r.min, r.len), i) == Some(Network(r.min + i * size, r.len))
              && r.min + i * size <= r.max && (r.min + i * size == r.max <==> i == steps)
  {
    hide Pow2, Floor, Span, Accepted, Walk;
    AcceptedExactly(f, n, len, min, max);
    RangeIsWalked(f, r.len, r.min, r.max, i);
  }

  /** How many subnets a network has. */
  function SubnetCount(prefix: nat, len: nat): nat { if prefix <= len then Pow2(len - prefix) else 0 }

  /** The i-th step is at the i-th subnet after the lowest, inside the network, and at the highest in the end. */
  predicate WalkedTo(f: Family, n: Network, r: Range, i: nat) {
    var at := Walk(f, Network(r.min, r.len), i);
    && at.Some? && at.value.prefix == r.len && at.value.ip == r.min + i * Span(f, r.len)
    && Base(f, n) < at.value.ip && at.value.ip + Span(f, r.len) <= End(f, n)
    && (at.value.ip == r.max <==> i + 2 == SubnetCount(n.prefix, r.len))
  }

  /** For a network given by its base address and no range, these are all subnets of the network but the first:
      the walk takes two steps fewer than there are subnets, and every subnet lies inside the network. */
  lemma SubnetsAreWalked(f: Family, n: Network, len: nat, r: Range, i: nat)
    requires Standard(f) && IsNetwork(f, n) && n.ip == Base(f, n) && Accepted(f, n, len, None, None) == Some(r)
    ensures var size := Span(f, r.len);
            && r.min <= r.max && SubnetCount(n.prefix, r.len) == (r.max - r.min) / size + 2
            && (i + 2 <= SubnetCount(n.prefix, r.len) ==> WalkedTo(f, n, r, i))
  {
    hide Pow2, Floor, Span, Base, Accepted, Walk, OnBoundary;
    AcceptedExactly(f, n, len, None, None);
    DefaultRange(f, n, len, r);
    AcceptedIsWalked(f, n, len, None, None, r, i);
    var size := Span(f, r.len);
    FourSubnets(f, n.prefix, r.len);
    SpanSplit(f, n.prefix, r.len);
    var steps: nat := Pow2(r.len - n.prefix) - 2;
    TwoMore(steps, size);
    QuotientExact(steps, size);
    MulNonNegative(i, size);
  }

  lemma TwoMore(k: nat, m: nat)
    ensures (k + 2) * m == k * m + 2 * m
  {
  }

  /** Any two subnets on such a walk are disjoint: the later one starts past the end of the earlier one. */
  lemma WalkedAreDisjoint(f: Family, len: nat, min: nat, max: nat, i: nat, j: nat)
    requires 1 <= len <= f.bits && min <= max < Pow2(f.bits)
    requires OnBoundary(min, Span(f, len)) && OnBoundary(max, Span(f, len))
    requires i < j <= (max - min) / Span(f, len)
    ensures var (a, b) := (Walk(f, Network(min, len), i), Walk(f, Network(min, len), j));
            a.Some? && b.Some? && a.value.ip + Span(f, len) <= b.value.ip
  {
    hide Pow2, Floor, Span, Walk;
    RangeIsWalked(f, len, min, max, i);
    RangeIsWalked(f, len, min, max, j);
    MulMonotonic(i + 1, j, Span(f, len));
    OneMore(i + 1, Span(f, len));
  }

  // ---------- The two families ----------

  /** Networks of either family given by their base address and not ending the address space: with no settings
      at all they are accepted up to /28, respectively /124, with subnets of the stated length, and walked. */
  lemma FamiliesAreWalked(f: Family, n: Network, i: nat)
    requires (f == V4 || f == V6) && IsNetwork(f, n) && n.ip == Base(f, n) && End(f, n) < Pow2(f.bits)
    ensures match Accepted(f, n, 0, None, None)
            case None => n.prefix > if f == V4 then 28 else 124
            case Some(r) =>
              && n.prefix <= (if f == V4 then 28 else 124)
              && r.len == (if n.prefix <= (if f == V4 then 22 else 62) then (if f == V4 then 24 else 64) else n.prefix + 2)
              && (i + 2 <= SubnetCount(n.prefix, r.len) ==> WalkedTo(f, n, r, i))
  {
    hide Pow2, Floor, Span, Walk, Accepted, SubnetCount;
    BothStandard();
    AcceptedExactly(f, n, 0, None, None);
    if LenUsable(f, n.prefix, 0) {
      var l := LenInUse(f, n.prefix, 0);
      NetworkBoundaries(f, n, l);
      SizeAtLeastFour(f, l);
      FourSubnets(f, n.prefix, l);
      SubnetsAreWalked(f, n, 0, Accepted(f, n, 0, None, None).value, i);
    }
  }

  // ---------- A network not given by its base address ----------

  lemma SmallPowers()
    ensures Pow2(8) == 256 && Pow2(10) == 1024 && Pow2(16) == 0x1_0000 && Pow2(32) == 0x1_0000_0000
  {
    assert Pow2(4) == 16;
    Pow2Add(4, 4);
    Pow2Add(2, 8);
    Pow2Add(8, 8);
    Pow2Add(16, 16);
  }

  /** 10.0.0.0/16 with subnets of 24 bits keeps them: from 10.0.1.0 to 10.0.255.0. */
  lemma GivenLengthIsKept()
    ensures Accepted(V4, Network(0x0a00_0000, 16), 24, None, None) == Some(Range(24, 0x0a00_0100, 0x0a00_ff00))
  {
    hide Pow2, Accepted;
    SmallPowers();
    assert Span(V4, 24) == 256 && Span(V4, 16) == 0x1_0000;
    var n := Network(0x0a00_0000, 16);
    assert Base(V4, n) == 0x0a00_0000;
    BothStandard();
    AcceptedExactly(V4, n, 24, None, None);
  }

  /** 10.0.3.0/22: accepted with the lowest subnet 10.0.4.0, outside the network and above the highest one. */
  lemma RangeOutsideNetwork()
    ensures var n := Network(0x0a00_0300, 22);
            && IsNetwork(V4, n) && Accepted(V4, n, 0, None, None) == Some(Range(24, 0x0a00_0400, 0x0a00_0300))
            && !Contains(V4, n, 0x0a00_0400)
  {
    hide Pow2, Accepted;
    SmallPowers();
    assert Span(V4, 24) == 256 && Span(V4, 22) == 1024;
    var n := Network(0x0a00_0300, 22);
    assert Base(V4, n) == 0x0a00_0000;
    BothStandard();
    AcceptedExactly(V4, n, 0, None, None);
  }
}
