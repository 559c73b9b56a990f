/** The addresses that are never connected to: refused kinds, and 6to4 addresses that route to one. */
module BlockedNetworks {
  import opened Options
  import opened Text
  import opened Ipv6Text
  import opened Address
  import opened Blocklist
  import opened RefusedBlocks

  // ------------------------------------------------------- parseInt with radix 16

  predicate IsHexDigit(c: char) {
    '0' <= c <= '9' || 'a' <= c <= 'f' || 'A' <= c <= 'F'
  }

  function HexDigit(c: char): (d: nat)
    requires IsHexDigit(c)
    ensures d < 16
  {
    if c <= '9' then c as int - '0' as int
    else if c <= 'F' then c as int - 'A' as int + 10
    else c as int - 'a' as int + 10
  }

  /** The digits a text begins with. */
  function HexPrefix(s: string): (p: string)
    ensures |p| <= |s| && p == s[..|p|] && (forall k :: 0 <= k < |p| ==> IsHexDigit(p[k]))
    ensures |p| < |s| ==> !IsHexDigit(s[|p|])
  {
    if s == "" || !IsHexDigit(s[0]) then "" else [s[0]] + HexPrefix(s[1..])
  }

  function HexValue(s: string): nat
    requires forall k :: 0 <= k < |s| ==> IsHexDigit(s[k])
  {
    if s == "" then 0 else HexValue(s[..|s| - 1]) * 16 + HexDigit(s[|s| - 1])
  }

  function WithoutSign(s: string): string {
    if s != "" && (s[0] == '-' || s[0] == '+') then s[1..] else s
  }

  function WithoutBase(s: string): string {
    if |s| >= 2 && s[0] == '0' && (s[1] == 'x' || s[1] == 'X') then s[2..] else s
  }

  /** `Number.parseInt(s, 16)`; None is NaN. What follows the digits is ignored. */
  function ParseInt16(s: string): Option<int> {
    var text := TrimStart(s);
    var digits := HexPrefix(WithoutBase(WithoutSign(text)));
    if digits == "" then None
    else
      var value: int := HexValue(digits);
      Some(if text[0] == '-' then -value else value)
  }

  // ------------------------------------------------------------ the third reader

  /** A group as the reader finds it: nothing is checked, and NaN is possible. */
  type Loose = Option<int>

  function ParsePart(part: string): seq<Loose> {
    if part == "" then []
    else
      var chunks := Split(part, ':');
      seq(|chunks|, i requires 0 <= i < |chunks| => ParseInt16(chunks[i]))
  }

  /** The groups of a text, by its first two pieces between `::`; None when the fill length is negative, which throws. */
  function ExpandGroups(text: string): Option<seq<Loose>> {
    var pieces := SplitDouble(text);
    var front := ParsePart(pieces[0]);
    if |pieces| == 1 then Some(front)
    else
      var back := ParsePart(pieces[1]);
      if |front| + |back| > 8 then None
      else Some(front + seq(8 - |front| - |back|, i => Some(0)) + back)
  }

  function Known(g: Groups): (r: seq<Loose>)
    ensures |r| == |g| && forall i :: 0 <= i < |g| ==> r[i] == Some(g[i])
  {
    seq(|g|, i requires 0 <= i < |g| => Some(g[i]))
  }

  lemma {:induction false} SameValue(s: string)
    requires IsNumeral(s, 16)
    ensures forall k :: 0 <= k < |s| ==> IsHexDigit(s[k])
    ensures HexValue(s) == NumeralValue(s, 16)
  {
    if s != "" {
      SameValue(s[..|s| - 1]);
      assert IsDigit(s[|s| - 1], 16);
    }
  }

  /** On one to four hex digits, the lenient number reader finds the number the parser finds. */
  lemma ChunkIsItsNumber(c: string)
    requires IsChunk(c)
    ensures ParseInt16(c) == Some(NumeralValue(c, 16))
  {
    assert IsDigit(c[0], 16) && (|c| > 1 ==> IsDigit(c[1], 16));
    assert TrimStart(c) == c && WithoutSign(c) == c && WithoutBase(c) == c;
    SameValue(c);
    assert HexPrefix(c) == c;
  }

  lemma PartAgrees(part: string)
    requires ToGroups(part).Some?
    ensures ParsePart(part) == Known(ToGroups(part).value)
  {
    if part != "" {
      var chunks := Split(part, ':');
      forall i | 0 <= i < |chunks| ensures ParseInt16(chunks[i]) == Some(NumeralValue(chunks[i], 16)) {
        ChunkIsItsNumber(chunks[i]);
      }
    }
  }

  lemma FillAgrees(a: Groups, b: Groups)
    requires |a| + |b| <= 8
    ensures Known(a) + seq(8 - |a| - |b|, i => Some(0)) + Known(b) == Known(a + Fill(8 - |a| - |b|) + b)
  {
  }

  /** On every text the parser accepts, the third reader finds the same groups. */
  lemma ExpandAgrees(text: string)
    requires ReadGroups(text).Some?
    ensures ExpandGroups(text) == Some(Known(ReadGroups(text).value))
  {
    var halves := SplitDouble(text);
    PartAgrees(halves[0]);
    if |halves| == 2 {
      PartAgrees(halves[1]);
      FillAgrees(ToGroups(halves[0]).value, ToGroups(halves[1]).value);
    }
  }

  /** For all eight groups, the third reader finds them in their text. */
  lemma PrintThenExpand(g: Groups)
    requires IsGroups(g)
    ensures ExpandGroups(TextOf(g)) == Some(Known(g))
  {
    PrintThenRead(g);
    ExpandAgrees(TextOf(g));
  }

  // ------------------------------------------------------------------------- 6to4

  /** `ToInt32`: NaN is zero, and numbers wrap. */
  function Int32(n: Loose): int {
    match n
    case None => 0
    case Some(x) =>
      var low := x % 0x1_0000_0000;
      if low < 0x8000_0000 then low else low - 0x1_0000_0000
  }

  function IntText(n: int): string {
    if n < 0 then "-" + Numeral(-n, 10) else Numeral(n, 10)
  }

  /** `${g >> 8}.${g & 0xff}`. */
  function TwoOctets(g: Loose): string {
    IntText(Int32(g) / 256) + "." + IntText(Int32(g) % 256)
  }

  function GroupAt(g: seq<Loose>, i: nat): Loose {
    if i < |g| then g[i] else Some(0)
  }

  /** The IPv4 address a 2002::/16 address routes to. */
  function SixToFourTarget(name: string): Option<string>
    requires ExpandGroups(name).Some?
  {
    var g := ExpandGroups(name).value;
    if g == [] || g[0] != Some(0x2002) then None
    else Some(TwoOctets(GroupAt(g, 1)) + "." + TwoOctets(GroupAt(g, 2)))
  }

  /** The IPv4 address written in the groups behind 2002. */
  function RoutedTo(g: Groups): (o: Octets)
    requires IsGroups(g)
    ensures IsOctets(o)
  {
    [g[1] / 256, g[1] % 256, g[2] / 256, g[2] % 256]
  }

  lemma FourOctetTexts(o: Octets)
    requires IsOctets(o)
    ensures V4Text(o) ==
            Numeral(o[0], 10) + "." + Numeral(o[1], 10) + "." + (Numeral(o[2], 10) + "." + Numeral(o[3], 10))
  {
    var t := OctetTexts(o);
    assert Join(t[3..], ".") == t[3];
    assert t[2..][1..] == t[3..] && Join(t[2..], ".") == t[2] + "." + t[3];
    assert t[1..][1..] == t[2..] && Join(t[1..], ".") == t[1] + "." + Join(t[2..], ".");
    assert Join(t, ".") == t[0] + "." + Join(t[1..], ".");
  }

  lemma GroupOctets(n: nat)
    requires n < 0x1_0000
    ensures TwoOctets(Some(n)) == Numeral(n / 256, 10) + "." + Numeral(n % 256, 10)
  {
    SmallStays(n);
  }

  lemma SmallStays(n: nat)
    requires n < 0x1_0000
    ensures Int32(Some(n)) == n
  {
    assert n % 0x1_0000_0000 == n;
  }

  lemma TargetOfGroups(name: string, g: Groups)
    requires IsGroups(g) && ExpandGroups(name) == Some(Known(g))
    ensures SixToFourTarget(name) == if g[0] == 0x2002 then Some(V4Text(RoutedTo(g))) else None
  {
    var known := Known(g);
    assert known[0] == Some(g[0]) && GroupAt(known, 1) == Some(g[1]) && GroupAt(known, 2) == Some(g[2]);
    GroupOctets(g[1]);
    GroupOctets(g[2]);
    FourOctetTexts(RoutedTo(g));
  }

  lemma TargetOfSix(g: Groups)
    requires IsGroups(g)
    ensures ExpandGroups(TextOf(g)).Some?
    ensures SixToFourTarget(TextOf(g)) == if g[0] == 0x2002 then Some(V4Text(RoutedTo(g))) else None
  {
    PrintThenExpand(g);
    TargetOfGroups(TextOf(g), g);
  }

  lemma ShortHexIsSmall(s: string)
    requires |s| <= 3 && forall k :: 0 <= k < |s| ==> IsHexDigit(s[k])
    ensures HexValue(s) < 0x1000
  {
    if s != "" {
      var t := s[..|s| - 1];
      if t != "" {
        var u := t[..|t| - 1];
        if u != "" {
          assert u[..|u| - 1] == "";
        }
      }
    }
  }

  /** The name of an IPv4 address reads as one small group, so it is never taken for a 6to4 address. */
  lemma TargetOfFour(o: Octets)
    requires IsOctets(o)
    ensures ExpandGroups(V4Text(o)).Some? && SixToFourTarget(V4Text(o)) == None
  {
    var s := V4Text(o);
    PrintThenReadV4(o);
    NoColons(s);
    FirstNumberIsSmall(o);
  }

  lemma NoColons(s: string)
    requires s != "" && forall k :: 0 <= k < |s| ==> IsDigitOrDot(s[k])
    ensures ExpandGroups(s) == Some([ParseInt16(s)])
  {
    forall k | 0 <= k < |s| ensures s[k] != ':' {
      assert IsDigitOrDot(s[k]);
    }
    SplitWhole(s, ':');
    assert DoubleColon(s) == |s|;
    assert SplitDouble(s) == [s];
    assert ParsePart(s) == [ParseInt16(s)];
  }

  lemma PrefixStops(s: string, k: nat)
    requires k < |s| && !IsHexDigit(s[k])
    ensures |HexPrefix(s)| <= k
  {
    var p := HexPrefix(s);
    assert forall j :: 0 <= j < |p| ==> p[j] == s[j];
  }

  lemma FirstNumberIsSmall(o: Octets)
    requires IsOctets(o)
    ensures ParseInt16(V4Text(o)) != Some(0x2002)
  {
    var s, first := V4Text(o), Numeral(o[0], 10);
    FourOctetTexts(o);
    DecimalLength(o[0]);
    assert s[|first|] == '.' && s[0] == first[0] && IsDigit(s[0], 10);
    PrintThenReadV4(o);
    assert IsDigitOrDot(s[1]);
    assert TrimStart(s) == s && WithoutSign(s) == s && WithoutBase(s) == s;
    var digits := HexPrefix(s);
    PrefixStops(s, |first|);
    ShortHexIsSmall(digits);
  }

  // ------------------------------------------------------------- the decision

  lemma NameExpands(ip: string)
    requires ClassifyAddress(ip).normalised.Some?
    ensures ExpandGroups(ClassifyAddress(ip).normalised.value).Some?
  {
    ClassifiedByAddressReached(ip);
    match Resolve(ip).value
    case Four(o) => TargetOfFour(o);
    case Six(g) => TargetOfSix(g);
  }

  /** Whether the guard must never connect to the address. */
  function IsBlockedAddress(ip: string): bool {
    var verdict := ClassifyAddress(ip);
    if !verdict.allowed then true
    else
      NameExpands(ip);
      var target := SixToFourTarget(verdict.normalised.value);
      target.Some? && !ClassifyAddress(target.value).allowed
  }

  /** A 6to4 address whose IPv4 address is refused. */
  predicate RoutesToRefused(r: Reached)
    requires IsReached(r)
  {
    r.Six? && r.groups[0] == 0x2002 && !ClassifyV4(RoutedTo(r.groups)).allowed
  }

  lemma TargetVerdict(r: Reached)
    requires IsReached(r)
    ensures ExpandGroups(Name(r)).Some?
    ensures var target := SixToFourTarget(Name(r));
            target.Some? && !ClassifyAddress(target.value).allowed <==> RoutesToRefused(r)
  {
    match r
    case Four(o) => TargetOfFour(o);
    case Six(g) =>
      TargetOfSix(g);
      var routed := Four(RoutedTo(g));
      NameResolves(routed);
      ClassifiedByAddressReached(Name(routed));
  }

  lemma BlockedByAddress(ip: string)
    ensures IsBlockedAddress(ip) <==>
            match Resolve(ip)
            case None => true
            case Some(r) => !VerdictOn(r).allowed || RoutesToRefused(r)
  {
    ClassifiedByAddressReached(ip);
    if Resolve(ip).Some? {
      TargetVerdict(Resolve(ip).value);
    }
  }

  /** The number lies in a refused block, or is of a 6to4 address that routes to one that does. */
  ghost predicate Forbidden(n: Number) {
    Refused(n) || (Routed(n).Some? && Refused(Routed(n).value))
  }

  lemma RefusedVerdict(r: Reached)
    requires IsReached(r)
    ensures VerdictOn(r).allowed <==> !Refused(NumberOf(r))
  {
    AllowedWithoutReason(r);
    forall reason ensures VerdictOn(r).reason == Some(reason) <==> RefusedFor(NumberOf(r), reason) {
      VerdictByBlock(r, reason);
    }
  }

  lemma RoutedVerdict(r: Reached)
    requires IsReached(r)
    ensures RoutesToRefused(r) <==> Routed(NumberOf(r)).Some? && Refused(Routed(NumberOf(r)).value)
  {
    if r.Six? {
      RoutedGroups(r.groups);
      RefusedVerdict(Four(RoutedTo(r.groups)));
      FoldFour(RoutedTo(r.groups));
    }
  }

  /**
   * For every text: it is blocked exactly when it names no address, a number in a
   * refused block, or a 6to4 address that routes to one.
   */
  lemma BlockedExactly(ip: string)
    ensures IsBlockedAddress(ip) <==>
            match NumberNamed(ip)
            case None => true
            case Some(n) => Forbidden(n)
  {
    BlockedByAddress(ip);
    NumberIsOfWhatIsNamed(ip);
    NumberOfAddressReached(ip);
    if Resolve(ip).Some? {
      RefusedVerdict(Resolve(ip).value);
      RoutedVerdict(Resolve(ip).value);
    }
  }
}
