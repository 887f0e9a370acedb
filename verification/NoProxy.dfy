/**
 * The CIDR entries of `NO_PROXY` (`rv-config/src/proxy_env.rs`; prefixes as in section 3.1 of
 * RFC 4632). An address is its bits, the most significant first: 32 of them or 128.
 */
module NoProxy {
  import opened Prelude

  type Bits = seq<bool>

  datatype Address = V4(bits: Bits) | V6(bits: Bits)

  datatype Network = Network(addr: Address, prefix: nat)

  function Width(addr: Address): nat {
    if addr.V4? then 32 else 128
  }

  predicate WellFormed(addr: Address) {
    if addr.V4? then |addr.bits| == 32 else |addr.bits| == 128
  }

  function Ones(width: nat): (bits: Bits)
    ensures |bits| == width && forall i | 0 <= i < width :: bits[i]
  {
    seq(width, i => true)
  }

  function Zeros(width: nat): (bits: Bits)
    ensures |bits| == width && forall i | 0 <= i < width :: !bits[i]
  {
    seq(width, i => false)
  }

  /** `checked_shl`: `None` for a shift by the whole width. */
  function CheckedShl(bits: Bits, shift: nat): Option<Bits> {
    if shift < |bits| then Some(bits[shift..] + Zeros(shift)) else None
  }

  function And(a: Bits, b: Bits): (c: Bits)
    requires |a| == |b|
    ensures |c| == |a| && forall i | 0 <= i < |a| :: c[i] == (a[i] && b[i])
  {
    seq(|a|, i requires 0 <= i < |a| => a[i] && b[i])
  }

  function Mask(width: nat, prefix: nat): (mask: Bits)
    requires prefix <= width
    ensures |mask| == width
  {
    var shifted := CheckedShl(Ones(width), width - prefix);
    if shifted.Some? then shifted.value else Zeros(width)
  }

  lemma MaskBits(width: nat, prefix: nat, i: nat)
    requires prefix <= width && i < width
    ensures Mask(width, prefix)[i] <==> i < prefix
  {
  }

  /** `network_start` */
  function NetworkStart(addr: Address, prefix: nat): Option<Address>
    requires WellFormed(addr)
  {
    if prefix > Width(addr) then None
    else
      var bits := And(addr.bits, Mask(Width(addr), prefix));
      Some(if addr.V4? then V4(bits) else V6(bits))
  }

  /** The CIDR branch of `parse_no_proxy`, for an address and a prefix that parse. */
  function ParseNetwork(addr: Address, prefix: nat): Option<Network>
    requires WellFormed(addr)
  {
    match NetworkStart(addr, prefix)
    case None => None
    case Some(start) => Some(Network(start, prefix))
  }

  /** `NoProxy::matches` for a network. */
  predicate Matches(network: Network, ip: Address)
    requires WellFormed(ip)
  {
    NetworkStart(ip, network.prefix) == Some(network.addr)
  }

  predicate SameFamily(a: Address, b: Address) {
    a.V4? <==> b.V4?
  }

  /** The first `prefix` bits of the address stay and the others are cleared. */
  lemma StartBits(addr: Address, prefix: nat)
    requires WellFormed(addr) && prefix <= Width(addr)
    ensures var start := NetworkStart(addr, prefix).value;
            && WellFormed(start) && SameFamily(start, addr)
            && start.bits[..prefix] == addr.bits[..prefix]
            && start.bits[prefix..] == Zeros(Width(addr) - prefix)
  {
    var start := NetworkStart(addr, prefix).value;
    forall i | 0 <= i < Width(addr) ensures start.bits[i] == (addr.bits[i] && i < prefix) {
      MaskBits(Width(addr), prefix, i);
    }
  }

  /**
   * A parsed entry covers an address exactly when the families agree and the first `prefix` bits
   * are those of the written address, for every prefix from 0 to the full width.
   */
  lemma MatchesExactly(written: Address, prefix: nat, ip: Address)
    requires WellFormed(written) && WellFormed(ip) && ParseNetwork(written, prefix).Some?
    ensures Matches(ParseNetwork(written, prefix).value, ip) <==>
            SameFamily(written, ip) && written.bits[..prefix] == ip.bits[..prefix]
  {
    StartBits(written, prefix);
    if SameFamily(written, ip) {
      StartBits(ip, prefix);
      var a, b := NetworkStart(written, prefix).value.bits, NetworkStart(ip, prefix).value.bits;
      assert a == a[..prefix] + a[prefix..] && b == b[..prefix] + b[prefix..];
    } else if prefix <= Width(ip) {
      StartBits(ip, prefix);
    }
  }

  lemma StartIsIdempotent(addr: Address, prefix: nat)
    requires WellFormed(addr) && prefix <= Width(addr)
    ensures WellFormed(NetworkStart(addr, prefix).value)
    ensures NetworkStart(NetworkStart(addr, prefix).value, prefix) == NetworkStart(addr, prefix)
  {
    var start := NetworkStart(addr, prefix).value;
    StartBits(addr, prefix);
    StartBits(start, prefix);
    var again := NetworkStart(start, prefix).value;
    assert again.bits == again.bits[..prefix] + again.bits[prefix..] == start.bits[..prefix] + start.bits[prefix..] ==
           start.bits;
  }

  /** A longer prefix names a range inside the one of a shorter prefix. */
  lemma LongerPrefixIsNested(written: Address, shorter: nat, longer: nat, ip: Address)
    requires WellFormed(written) && WellFormed(ip) && shorter <= longer <= Width(written)
    ensures Matches(ParseNetwork(written, longer).value, ip) ==> Matches(ParseNetwork(written, shorter).value, ip)
  {
    MatchesExactly(written, longer, ip);
    MatchesExactly(written, shorter, ip);
    if SameFamily(written, ip) {
      assert written.bits[..longer][..shorter] == written.bits[..shorter]
             && ip.bits[..longer][..shorter] == ip.bits[..shorter];
    }
  }

  /** The number an address stands for. */
  function Value(bits: Bits): nat {
    if bits == [] then 0 else 2 * Value(bits[..|bits| - 1]) + if bits[|bits| - 1] then 1 else 0
  }

  lemma {:induction false} FewerBitsAreLess(a: Bits, b: Bits)
    requires |a| == |b| && forall i | 0 <= i < |a| :: a[i] ==> b[i]
    ensures Value(a) <= Value(b)
  {
    if a != [] {
      FewerBitsAreLess(a[..|a| - 1], b[..|b| - 1]);
    }
  }

  function Power(n: nat): (p: nat)
    ensures p > 0
  {
    if n == 0 then 1 else 2 * Power(n - 1)
  }

  lemma {:induction false} ValueIsSmall(bits: Bits)
    ensures Value(bits) < Power(|bits|)
  {
    if bits != [] {
      ValueIsSmall(bits[..|bits| - 1]);
    }
  }

  lemma {:induction false} ZerosAreZero(width: nat)
    ensures Value(Zeros(width)) == 0
  {
    if width > 0 {
      ZerosAreZero(width - 1);
      assert Zeros(width)[..width - 1] == Zeros(width - 1);
    }
  }

  lemma {:induction false} ValueOfJoined(a: Bits, b: Bits)
    ensures Value(a + b) == Value(a) * Power(|b|) + Value(b)
  {
    if b == [] {
      assert a + b == a;
    } else {
      var rest := b[..|b| - 1];
      ValueOfJoined(a, rest);
      LastOfJoined(a, b);
      TwiceTimes(Value(a), Power(|rest|));
    }
  }

  lemma LastOfJoined(a: Bits, b: Bits)
    requires b != []
    ensures Value(a + b) == 2 * Value(a + b[..|b| - 1]) + if b[|b| - 1] then 1 else 0
  {
    assert (a + b)[..|a + b| - 1] == a + b[..|b| - 1];
  }

  lemma TwiceTimes(a: nat, b: nat)
    ensures 2 * (a * b) == a * (2 * b)
  {
  }

  lemma MultipleIsLarge(d: int, m: int)
    requires m > 0
    ensures d >= 1 ==> d * m >= m
  {
    if d >= 1 {
      assert (d - 1) * m >= 0;
    }
  }

  lemma SmallMultiple(d: int, m: int)
    requires m > 0
    ensures d * m < m ==> d <= 0
    ensures -m < d * m ==> d >= 0
  {
    MultipleIsLarge(d, m);
    MultipleIsLarge(-d, m);
    assert (-d) * m == -(d * m);
  }

  lemma QuotientOf(q: nat, m: nat, r: nat)
    requires r < m
    ensures (q * m + r) / m == q
  {
    var n := q * m + r;
    assert n == n / m * m + n % m;
    assert (n / m - q) * m == r - n % m;
    SmallMultiple(n / m - q, m);
  }

  lemma RoundedOf(q: nat, m: nat, r: nat, n: nat)
    requires r < m && n == q * m + r
    ensures n / m * m == q * m
  {
    QuotientOf(q, m, r);
  }

  lemma RoundedJoin(top: Bits, low: Bits)
    ensures var size := Power(|low|); Value(top + Zeros(|low|)) == Value(top + low) / size * size
  {
    ValueOfJoined(top, low);
    ValueOfJoined(top, Zeros(|low|));
    ZerosAreZero(|low|);
    ValueIsSmall(low);
    RoundedOf(Value(top), Power(|low|), Value(low), Value(top + low));
  }

  /** As numbers: the shift and mask clear the low bits, so the start is a multiple of the size of the range. */
  lemma StartIsRounded(addr: Address, prefix: nat)
    requires WellFormed(addr) && prefix <= Width(addr)
    ensures var size := Power(Width(addr) - prefix);
            Value(NetworkStart(addr, prefix).value.bits) == Value(addr.bits) / size * size
  {
    StartSplits(addr, prefix);
    RoundedJoin(addr.bits[..prefix], addr.bits[prefix..]);
  }

  lemma StartSplits(addr: Address, prefix: nat)
    requires WellFormed(addr) && prefix <= Width(addr)
    ensures |addr.bits[prefix..]| == Width(addr) - prefix && addr.bits == addr.bits[..prefix] + addr.bits[prefix..]
    ensures NetworkStart(addr, prefix).value.bits == addr.bits[..prefix] + Zeros(Width(addr) - prefix)
  {
    StartBits(addr, prefix);
  }

  /** What an entry stores is the first address of its range. */
  lemma StartIsFirst(written: Address, prefix: nat, ip: Address)
    requires WellFormed(written) && WellFormed(ip) && prefix <= Width(written)
    requires Matches(ParseNetwork(written, prefix).value, ip)
    ensures var start := ParseNetwork(written, prefix).value.addr;
            WellFormed(start) && Matches(ParseNetwork(written, prefix).value, start)
              && Value(start.bits) <= Value(ip.bits)
  {
    StartIsIdempotent(written, prefix);
    FewerBitsAreLess(NetworkStart(ip, prefix).value.bits, ip.bits);
  }
}
