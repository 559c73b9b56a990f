/**
 * The refused addresses as blocks of numbers, each a network and a prefix length,
 * written down apart from the code that tells them by octets and groups.
 */
module RefusedBlocks {
  import opened Options
  import opened Text
  import opened Ipv6Text
  import opened Address
  import opened Powers
  import opened Blocklist

  /** The first `length` of `width` bits are those of the network. */
  predicate InBlock(v: nat, network: nat, length: nat, width: nat)
    requires length <= width
  {
    Masked(v, width - length) == Masked(network, width - length)
  }

  /** A block is the interval from its network on, as long as its host bits allow. */
  lemma BlockInterval(v: nat, network: nat, length: nat, width: nat, top: nat)
    requires length <= width && network == top * Pow2(width - length)
    ensures InBlock(v, network, length, width) <==> network <= v <= network + Pow2(width - length) - 1
  {
    var h := width - length;
    QuotIsUnique(network, Pow2(h), top);
    BlockIsInterval(v, network, h);
  }

  // ------------------------------------------------------------------- IPv4

  function Dotted(a: nat, b: nat, c: nat, d: nat): nat {
    ((a * 256 + b) * 256 + c) * 256 + d
  }

  predicate In4(v: nat, a: nat, b: nat, c: nat, d: nat, length: nat)
    requires length <= 32
  {
    InBlock(v, Dotted(a, b, c, d), length, 32)
  }

  /** The IPv4 numbers refused for a reason. */
  predicate Refused4(v: nat, reason: Reason) {
    match reason
    case UNSPECIFIED => In4(v, 0, 0, 0, 0, 8)
    case LOOPBACK => In4(v, 127, 0, 0, 0, 8)
    case PRIVATE =>
      In4(v, 10, 0, 0, 0, 8) || In4(v, 172, 16, 0, 0, 12) || In4(v, 192, 168, 0, 0, 16) || In4(v, 100, 64, 0, 0, 10)
    case LINK_LOCAL => In4(v, 169, 254, 0, 0, 16) && v != Dotted(169, 254, 169, 254)
    case CLOUD_METADATA => v == Dotted(169, 254, 169, 254)
    case RESERVED =>
      || In4(v, 192, 0, 0, 0, 24) || In4(v, 192, 0, 2, 0, 24) || In4(v, 198, 18, 0, 0, 15)
      || In4(v, 198, 51, 100, 0, 24) || In4(v, 203, 0, 113, 0, 24) || In4(v, 240, 0, 0, 0, 4)
    case MULTICAST => In4(v, 224, 0, 0, 0, 4)
    case UNIQUE_LOCAL => false
    case MALFORMED => false
  }

  lemma SmallPowers()
    ensures Pow2(8) == 0x100 && Pow2(16) == 0x1_0000 && Pow2(17) == 0x2_0000 && Pow2(20) == 0x10_0000
    ensures Pow2(22) == 0x40_0000 && Pow2(24) == 0x100_0000 && Pow2(28) == 0x1000_0000
  {
    Pow2Values();
    Pow2Adds(1, 16);
    Pow2Adds(8, 16);
    assert Pow2(4) == 16 && Pow2(6) == 64;
    Pow2Adds(4, 16);
    Pow2Adds(6, 16);
    Pow2Adds(4, 24);
  }

  /** A block of IPv4 numbers as an interval. */
  lemma Block4(v: nat, a: nat, b: nat, c: nat, length: nat, top: nat, size: nat)
    requires length <= 32 && Pow2(32 - length) == size && Dotted(a, b, c, 0) == top * size
    ensures In4(v, a, b, c, 0, length) <==> Dotted(a, b, c, 0) <= v <= Dotted(a, b, c, 0) + size - 1
  {
    BlockInterval(v, Dotted(a, b, c, 0), length, 32, top);
  }

  /** A block that ends with the first, the second or the third octet. */
  lemma ByFirst(o: Octets, a: nat)
    requires IsOctets(o) && a < 256
    ensures In4(Fold(o, 256), a, 0, 0, 0, 8) <==> o[0] == a
  {
    FoldFour(o);
    SmallPowers();
    Block4(Fold(o, 256), a, 0, 0, 8, a, 0x100_0000);
  }

  lemma BySecond(o: Octets, a: nat, b: nat)
    requires IsOctets(o) && a < 256 && b < 256
    ensures In4(Fold(o, 256), a, b, 0, 0, 16) <==> o[0] == a && o[1] == b
  {
    FoldFour(o);
    SmallPowers();
    Block4(Fold(o, 256), a, b, 0, 16, a * 256 + b, 0x1_0000);
  }

  lemma ByThird(o: Octets, a: nat, b: nat, c: nat)
    requires IsOctets(o) && a < 256 && b < 256 && c < 256
    ensures In4(Fold(o, 256), a, b, c, 0, 24) <==> o[0] == a && o[1] == b && o[2] == c
  {
    FoldFour(o);
    SmallPowers();
    Block4(Fold(o, 256), a, b, c, 24, (a * 256 + b) * 256 + c, 0x100);
  }

  /** A block that ends inside an octet. */
  lemma ByPartOfFirst(o: Octets, top: nat)
    requires IsOctets(o) && top < 16
    ensures In4(Fold(o, 256), top * 16, 0, 0, 0, 4) <==> top * 16 <= o[0] < top * 16 + 16
  {
    FoldFour(o);
    SmallPowers();
    Block4(Fold(o, 256), top * 16, 0, 0, 4, top, 0x1000_0000);
  }

  lemma Ending172(o: Octets)
    requires IsOctets(o)
    ensures In4(Fold(o, 256), 172, 16, 0, 0, 12) <==> o[0] == 172 && 16 <= o[1] < 32
  {
    FoldFour(o);
    SmallPowers();
    Block4(Fold(o, 256), 172, 16, 0, 12, 0xac1, 0x10_0000);
  }

  lemma Ending100(o: Octets)
    requires IsOctets(o)
    ensures In4(Fold(o, 256), 100, 64, 0, 0, 10) <==> o[0] == 100 && 64 <= o[1] < 128
  {
    FoldFour(o);
    SmallPowers();
    Block4(Fold(o, 256), 100, 64, 0, 10, 0x191, 0x40_0000);
  }

  lemma Ending198(o: Octets)
    requires IsOctets(o)
    ensures In4(Fold(o, 256), 198, 18, 0, 0, 15) <==> o[0] == 198 && 18 <= o[1] < 20
  {
    FoldFour(o);
    SmallPowers();
    Block4(Fold(o, 256), 198, 18, 0, 15, 0x6309, 0x2_0000);
  }

  /** The octets of an address refused for a reason. */
  predicate Octets4(o: Octets, reason: Reason)
    requires IsOctets(o)
  {
    match reason
    case UNSPECIFIED => o[0] == 0
    case LOOPBACK => o[0] == 127
    case PRIVATE =>
      || o[0] == 10 || (o[0] == 172 && 16 <= o[1] < 32) || (o[0] == 192 && o[1] == 168)
      || (o[0] == 100 && 64 <= o[1] < 128)
    case LINK_LOCAL => o[0] == 169 && o[1] == 254 && !(o[2] == 169 && o[3] == 254)
    case CLOUD_METADATA => o[0] == 169 && o[1] == 254 && o[2] == 169 && o[3] == 254
    case RESERVED =>
      || (o[0] == 192 && o[1] == 0 && o[2] == 0) || (o[0] == 192 && o[1] == 0 && o[2] == 2)
      || (o[0] == 198 && 18 <= o[1] < 20) || (o[0] == 198 && o[1] == 51 && o[2] == 100)
      || (o[0] == 203 && o[1] == 0 && o[2] == 113) || 240 <= o[0] < 256
    case MULTICAST => 224 <= o[0] < 240
    case UNIQUE_LOCAL => false
    case MALFORMED => false
  }

  lemma FourByOctets(o: Octets, reason: Reason)
    requires IsOctets(o)
    ensures ReasonV4(o) == Some(reason) <==> Octets4(o, reason)
  {
  }

  lemma OctetsByBlock(o: Octets, reason: Reason)
    requires IsOctets(o)
    ensures Octets4(o, reason) <==> Refused4(Fold(o, 256), reason)
  {
    match reason
    case UNSPECIFIED => ByFirst(o, 0);
    case LOOPBACK => ByFirst(o, 127);
    case PRIVATE => ByFirst(o, 10); Ending172(o); Ending100(o); BySecond(o, 192, 168);
    case LINK_LOCAL => BySecond(o, 169, 254); FoldFour(o);
    case CLOUD_METADATA => FoldFour(o);
    case RESERVED =>
      ByThird(o, 192, 0, 0); ByThird(o, 192, 0, 2); Ending198(o);
      ByThird(o, 198, 51, 100); ByThird(o, 203, 0, 113); ByPartOfFirst(o, 15);
    case MULTICAST => ByPartOfFirst(o, 14);
    case UNIQUE_LOCAL =>
    case MALFORMED =>
  }

  /** An IPv4 address is refused for a reason exactly when its number is in a block of that reason. */
  lemma FourByBlock(o: Octets, reason: Reason)
    requires IsOctets(o)
    ensures ClassifyV4(o).reason == Some(reason) <==> Refused4(Fold(o, 256), reason)
  {
    FourByOctets(o, reason);
    OctetsByBlock(o, reason);
  }

  // ------------------------------------------------------------------- IPv6

  const P96: nat := 0x1_0000_0000_0000_0000_0000_0000

  /** A block named by the first two groups of its network. */
  predicate In6(v: nat, a: nat, b: nat, length: nat)
    requires length <= 128
  {
    InBlock(v, (a * 0x1_0000 + b) * P96, length, 128)
  }

  /** fd00:ec2::254. */
  const METADATA_V6: nat := 0xfd00_0ec2 * P96 + 0x254

  /** The IPv6 numbers refused for a reason; those of embedded IPv4 addresses aside. */
  predicate Refused6(v: nat, reason: Reason) {
    match reason
    case UNSPECIFIED => v == 0
    case LOOPBACK => v == 1
    case CLOUD_METADATA => v == METADATA_V6
    case UNIQUE_LOCAL => In6(v, 0xfc00, 0, 7) && v != METADATA_V6
    case LINK_LOCAL => In6(v, 0xfe80, 0, 10)
    case MULTICAST => In6(v, 0xff00, 0, 8)
    case RESERVED => In6(v, 0x64, 0xff9b, 32) || In6(v, 0x2001, 0xdb8, 32) || In6(v, 0x100, 0, 32)
    case PRIVATE => false
    case MALFORMED => false
  }

  lemma LargePowers()
    ensures Pow2(96) == P96 && Pow2(118) == 0x40_0000 * P96
    ensures Pow2(120) == 0x100_0000 * P96 && Pow2(121) == 0x200_0000 * P96
  {
    Pow2Values();
    SmallPowers();
    Pow2Adds(32, 32);
    Pow2Adds(32, 64);
    Pow2Adds(22, 96);
    Pow2Adds(24, 96);
    Pow2Adds(1, 120);
  }

  /** The part of a value below its first two groups. */
  function Below(g: Groups): nat
    requires |g| == 8
  {
    ((((g[2] * 0x1_0000 + g[3]) * 0x1_0000 + g[4]) * 0x1_0000 + g[5]) * 0x1_0000 + g[6]) * 0x1_0000 + g[7]
  }

  lemma FoldTop(g: Groups)
    requires IsGroups(g)
    ensures Fold(g, 0x1_0000) == (g[0] * 0x1_0000 + g[1]) * P96 + Below(g) && Below(g) < P96
  {
    assert g[..8] == g && g[..0] == [];
    FoldHalf(g, 1); FoldHalf(g, 2); FoldHalf(g, 3); FoldHalf(g, 4);
    FoldHalf(g, 5); FoldHalf(g, 6); FoldHalf(g, 7); FoldHalf(g, 8);
  }

  lemma Block6(v: nat, top: nat, low: nat, a: nat, b: nat, length: nat, block: nat, size: nat)
    requires v == top * P96 + low && low < P96
    requires length <= 128 && Pow2(128 - length) == size * P96 && a * 0x1_0000 + b == block * size
    ensures In6(v, a, b, length) <==> block * size <= top < block * size + size
  {
    var network := (a * 0x1_0000 + b) * P96;
    assert network == block * (size * P96);
    BlockInterval(v, network, length, 128, block);
  }

  lemma SixByTop(g: Groups)
    requires IsGroups(g)
    ensures var v := Fold(g, 0x1_0000);
            && (In6(v, 0xfc00, 0, 7) <==> 0xfc00 <= g[0] < 0xfe00)
            && (In6(v, 0xfe80, 0, 10) <==> 0xfe80 <= g[0] < 0xfec0)
            && (In6(v, 0xff00, 0, 8) <==> 0xff00 <= g[0])
  {
    var v, top := Fold(g, 0x1_0000), g[0] * 0x1_0000 + g[1];
    FoldTop(g);
    LargePowers();
    Block6(v, top, Below(g), 0xfc00, 0, 7, 0x7e, 0x200_0000);
    Block6(v, top, Below(g), 0xfe80, 0, 10, 0x3fa, 0x40_0000);
    Block6(v, top, Below(g), 0xff00, 0, 8, 0xff, 0x100_0000);
  }

  lemma SixByTwo(g: Groups, a: nat, b: nat)
    requires IsGroups(g) && a < 0x1_0000 && b < 0x1_0000
    ensures In6(Fold(g, 0x1_0000), a, b, 32) <==> g[0] == a && g[1] == b
  {
    FoldTop(g);
    LargePowers();
    Block6(Fold(g, 0x1_0000), g[0] * 0x1_0000 + g[1], Below(g), a, b, 32, a * 0x1_0000 + b, 1);
  }

  lemma SixIsMetadata(g: Groups)
    requires IsGroups(g)
    ensures Fold(g, 0x1_0000) == METADATA_V6 <==>
            g[0] == 0xfd00 && g[1] == 0x0ec2 && (forall i :: 2 <= i < 7 ==> g[i] == 0) && g[7] == 0x254
  {
    FoldTop(g);
    var five := (((g[2] * 0x1_0000 + g[3]) * 0x1_0000 + g[4]) * 0x1_0000 + g[5]) * 0x1_0000 + g[6];
    assert Below(g) == five * 0x1_0000 + g[7];
    assert five == 0 <==> forall i :: 2 <= i < 7 ==> g[i] == 0;
    assert Below(g) == 0x254 <==> five == 0 && g[7] == 0x254;
  }

  /** The groups of an address refused for a reason. */
  predicate Groups6(g: Groups, reason: Reason)
    requires IsGroups(g)
  {
    var metadata := g[0] == 0xfd00 && g[1] == 0x0ec2 && (forall i :: 2 <= i < 7 ==> g[i] == 0) && g[7] == 0x254;
    match reason
    case UNSPECIFIED => ZeroUpTo(g, 8)
    case LOOPBACK => ZeroUpTo(g, 7) && g[7] == 1
    case CLOUD_METADATA => metadata
    case UNIQUE_LOCAL => 0xfc00 <= g[0] < 0xfe00 && !metadata
    case LINK_LOCAL => 0xfe80 <= g[0] < 0xfec0
    case MULTICAST => 0xff00 <= g[0]
    case RESERVED =>
      || (g[0] == 0x64 && g[1] == 0xff9b) || (g[0] == 0x2001 && g[1] == 0xdb8) || (g[0] == 0x100 && g[1] == 0)
    case PRIVATE => false
    case MALFORMED => false
  }

  lemma HighParts(x: nat)
    requires x < 0x1_0000
    ensures x / 0x200 * 0x200 == 0xfc00 <==> 0xfc00 <= x < 0xfe00
    ensures x / 0x40 * 0x40 == 0xfe80 <==> 0xfe80 <= x < 0xfec0
    ensures x / 0x100 * 0x100 == 0xff00 <==> 0xff00 <= x
  {
  }

  lemma SixByGroups(g: Groups, reason: Reason)
    requires IsGroups(g) && !EmbedsV4(g)
    ensures ClassifyV6(g, None).reason == Some(reason) <==> Groups6(g, reason)
  {
    HighParts(g[0]);
  }

  lemma GroupsByBlock(g: Groups, reason: Reason)
    requires IsGroups(g)
    ensures Groups6(g, reason) <==> Refused6(Fold(g, 0x1_0000), reason)
  {
    match reason
    case UNSPECIFIED => FoldEight(g);
    case LOOPBACK => FoldEight(g);
    case CLOUD_METADATA => SixIsMetadata(g);
    case UNIQUE_LOCAL => SixByTop(g); SixIsMetadata(g);
    case LINK_LOCAL => SixByTop(g);
    case MULTICAST => SixByTop(g);
    case RESERVED => SixByTwo(g, 0x64, 0xff9b); SixByTwo(g, 0x2001, 0xdb8); SixByTwo(g, 0x100, 0);
    case PRIVATE =>
    case MALFORMED =>
  }

  /** An IPv6 address of its own is refused for a reason exactly when its number is in a block of that reason. */
  lemma SixByBlock(g: Groups, reason: Reason)
    requires IsGroups(g) && !EmbedsV4(g)
    ensures ClassifyV6(g, None).reason == Some(reason) <==> Refused6(Fold(g, 0x1_0000), reason)
  {
    SixByGroups(g, reason);
    GroupsByBlock(g, reason);
  }

  // ------------------------------------------------------------- every address

  predicate RefusedFor(n: Number, reason: Reason) {
    if n.family == 4 then Refused4(n.value, reason) else Refused6(n.value, reason)
  }

  ghost predicate Refused(n: Number) {
    exists reason :: RefusedFor(n, reason)
  }

  /**
   * The number of what a text names: an IPv6 number of its own, or, when its upper 96
   * bits are 0 or 0xffff and it is not `::` or `::1`, the IPv4 number in the lower 32.
   */
  function NumberNamed(ip: string): Option<Number> {
    var value := Trim(ip);
    match ParseV4(value)
    case Some(o) => Some(Number(4, Fold(o, 256)))
    case None =>
      match ParseV6(value)
      case None => None
      case Some(v) =>
        var w := Fold(v.groups, 0x1_0000);
        if ReallyV6(w) then Some(Number(6, w)) else Some(Number(4, w % 0x1_0000_0000))
  }

  lemma TailNumber(g: Groups)
    requires IsGroups(g)
    ensures Fold(TailOctets(g), 256) == Fold(g, 0x1_0000) % 0x1_0000_0000
  {
    FoldFour(TailOctets(g));
    assert g[..8] == g;
    FoldHalf(g, 7);
    FoldHalf(g, 8);
    var upper, low := Fold(g[..6], 0x1_0000), g[6] * 0x1_0000 + g[7];
    assert Fold(g, 0x1_0000) == upper * 0x1_0000_0000 + low;
    LowPart(upper, low, 0x1_0000_0000);
  }

  lemma LowPart(upper: nat, low: nat, size: nat)
    requires low < size
    ensures (upper * size + low) % size == low && (upper * size + low) / size == upper
  {
    var v := upper * size + low;
    QuotIsUnique(v, size, upper);
    assert v / size * size + v % size == v;
  }

  lemma LeadsToNumber(g: Groups)
    requires IsGroups(g)
    ensures var w := Fold(g, 0x1_0000);
            NumberOf(LeadsTo(g)) == if ReallyV6(w) then Number(6, w) else Number(4, w % 0x1_0000_0000)
  {
    FoldEight(g);
    TailNumber(g);
  }

  /** The number found by classifying and parsing again is that of what the text names. */
  lemma NumberIsOfWhatIsNamed(ip: string)
    ensures ToAddressNumber(ip) == NumberNamed(ip)
  {
    NumberOfAddressReached(ip);
    var value := Trim(ip);
    if ParseV4(value).None? && ParseV6(value).Some? {
      DottedTailAgrees(value);
      LeadsToNumber(ParseV6(value).value.groups);
    }
  }

  lemma VerdictByBlock(r: Reached, reason: Reason)
    requires IsReached(r)
    ensures VerdictOn(r).reason == Some(reason) <==> RefusedFor(NumberOf(r), reason)
  {
    match r
    case Four(o) => FourByBlock(o, reason);
    case Six(g) => SixByBlock(g, reason);
  }

  /**
   * For every text: it is refused as malformed when it names no address, for a reason
   * exactly when the number it names is in a block of that reason, and allowed exactly
   * when it names a number in none.
   */
  lemma ClassifiedByBlock(ip: string)
    ensures match NumberNamed(ip)
            case None => ClassifyAddress(ip) == Verdict(false, Some(MALFORMED), None)
            case Some(n) =>
              && (ClassifyAddress(ip).allowed <==> !Refused(n))
              && forall reason :: ClassifyAddress(ip).reason == Some(reason) <==> RefusedFor(n, reason)
  {
    NumberIsOfWhatIsNamed(ip);
    NumberOfAddressReached(ip);
    ClassifiedByAddressReached(ip);
    if Resolve(ip).Some? {
      var r := Resolve(ip).value;
      var n := NumberOf(r);
      forall reason ensures VerdictOn(r).reason == Some(reason) <==> RefusedFor(n, reason) {
        VerdictByBlock(r, reason);
      }
      AllowedWithoutReason(r);
    }
  }

  lemma AllowedWithoutReason(r: Reached)
    requires IsReached(r)
    ensures VerdictOn(r).allowed <==> VerdictOn(r).reason.None?
  {
  }

  // ------------------------------------------------------------------ 6to4

  const P80: nat := 0x1_0000_0000_0000_0000_0000

  /** The IPv4 number that a 6to4 address, one in 2002::/16, routes to: the 32 bits behind the prefix. */
  function Routed(n: Number): Option<Number> {
    if n.family == 6 && n.value / P80 / 0x1_0000_0000 == 0x2002 then Some(Number(4, n.value / P80 % 0x1_0000_0000))
    else None
  }

  lemma FoldThree(g: Groups)
    requires IsGroups(g)
    ensures Fold(g, 0x1_0000) / P80 == g[0] * 0x1_0000_0000 + (g[1] * 0x1_0000 + g[2])
  {
    assert g[..8] == g && g[..0] == [];
    FoldHalf(g, 1); FoldHalf(g, 2); FoldHalf(g, 3); FoldHalf(g, 4);
    FoldHalf(g, 5); FoldHalf(g, 6); FoldHalf(g, 7); FoldHalf(g, 8);
    var low := (((g[3] * 0x1_0000 + g[4]) * 0x1_0000 + g[5]) * 0x1_0000 + g[6]) * 0x1_0000 + g[7];
    var top := g[0] * 0x1_0000_0000 + (g[1] * 0x1_0000 + g[2]);
    assert Fold(g, 0x1_0000) == top * P80 + low;
    LowPart(top, low, P80);
  }

  lemma RoutedGroups(g: Groups)
    requires IsGroups(g)
    ensures Routed(Number(6, Fold(g, 0x1_0000))) ==
            if g[0] == 0x2002 then Some(Number(4, g[1] * 0x1_0000 + g[2])) else None
  {
    FoldThree(g);
    LowPart(g[0], g[1] * 0x1_0000 + g[2], 0x1_0000_0000);
  }
}
