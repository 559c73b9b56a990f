/** Parsing an address in any spelling and deciding where it leads. */
module Address {
  import opened Options
  import opened Text
  import opened Ipv6Text

  type Octets = seq<nat>

  predicate IsOctets(o: Octets) {
    |o| == 4 && forall i :: 0 <= i < 4 ==> o[i] < 256
  }

  // ------------------------------------------------------------------- IPv4

  /** One to three digits, no leading zero, at most 255. */
  predicate IsOctetText(part: string) {
    && 1 <= |part| <= 3 && IsNumeral(part, 10)
    && (|part| > 1 ==> part[0] != '0')
    && NumeralValue(part, 10) <= 255
  }

  function ParseV4(value: string): (r: Option<Octets>)
    ensures r.Some? ==> IsOctets(r.value)
  {
    var parts := Split(value, '.');
    if |parts| == 4 && forall i :: 0 <= i < 4 ==> IsOctetText(parts[i]) then
      Some(seq(4, i requires 0 <= i < 4 => NumeralValue(parts[i], 10)))
    else None
  }

  method ParseIpv4(value: string) returns (r: Option<Octets>)
    ensures r == ParseV4(value)
  {
    var parts := Split(value, '.');
    if |parts| != 4 { return None; }
    var octets: Octets := [];
    for i := 0 to 4
      invariant |octets| == i
      invariant forall k :: 0 <= k < i ==> IsOctetText(parts[k]) && octets[k] == NumeralValue(parts[k], 10)
    {
      var part := parts[i];
      if !(1 <= |part| <= 3 && IsNumeral(part, 10)) { return None; }
      if |part| > 1 && part[0] == '0' { return None; }
      var n := NumeralValue(part, 10);
      if n > 255 { return None; }
      octets := octets + [n];
    }
    assert octets == ParseV4(value).value;
    return Some(octets);
  }

  function OctetTexts(o: Octets): (r: seq<string>)
    ensures |r| == |o| && forall i :: 0 <= i < |o| ==> r[i] == Numeral(o[i], 10)
  {
    seq(|o|, i requires 0 <= i < |o| => Numeral(o[i], 10))
  }

  function V4Text(o: Octets): string {
    Join(OctetTexts(o), ".")
  }

  lemma OctetRoundTrip(n: nat)
    requires n < 256
    ensures IsOctetText(Numeral(n, 10)) && NumeralValue(Numeral(n, 10), 10) == n
  {
    DecimalLength(n);
    NumeralRoundTrip(n, 10);
  }

  /** What the text of an IPv4 address consists of. */
  predicate IsDigitOrDot(c: char) {
    IsDigit(c, 10) || c == '.'
  }

  lemma PrintThenReadV4(o: Octets)
    requires IsOctets(o)
    ensures ParseV4(V4Text(o)) == Some(o)
    ensures forall k :: 0 <= k < |V4Text(o)| ==> IsDigitOrDot(V4Text(o)[k])
    ensures '.' in V4Text(o)
  {
    var parts := OctetTexts(o);
    forall i | 0 <= i < 4 ensures '.' !in parts[i] && IsOctetText(parts[i]) && NumeralValue(parts[i], 10) == o[i] {
      OctetRoundTrip(o[i]);
    }
    SplitJoin(parts, '.');
    assert ParseV4(V4Text(o)).value == o;
    JoinChars(parts, ".", IsDigitOrDot);
    if '.' !in V4Text(o) {
      SplitWhole(V4Text(o), '.');
    }
  }

  /** Every IPv4 address has one accepted spelling, its canonical text. */
  lemma OneSpellingV4(s: string, o: Octets)
    ensures ParseV4(s) == Some(o) <==> IsOctets(o) && s == V4Text(o)
  {
    if IsOctets(o) && s == V4Text(o) {
      PrintThenReadV4(o);
    }
    if ParseV4(s) == Some(o) {
      var parts := Split(s, '.');
      forall i | 0 <= i < 4 ensures OctetTexts(o)[i] == parts[i] {
        assert IsOctetText(parts[i]);
        DecimalIsPrinted(parts[i]);
      }
      assert OctetTexts(o) == parts;
      JoinSplit(s, '.');
    }
  }

  // ------------------------------------------------------------------- IPv6

  datatype V6 = V6(groups: Groups, dotted: Option<Octets>)

  /** Trimmed, lower-cased, without brackets and without a zone index. */
  function Bare(value: string): string {
    var text := Lower(Trim(value));
    var inner := if |text| >= 2 && text[0] == '[' && text[|text| - 1] == ']' then text[1..|text| - 1] else text;
    inner[..IndexOf(inner, '%')]
  }

  /** The two groups a dotted tail stands for. */
  function DottedTail(o: Octets): string
    requires IsOctets(o)
  {
    Numeral(o[0] * 256 + o[1], 16) + ":" + Numeral(o[2] * 256 + o[3], 16)
  }

  /** The text with a dotted tail rewritten as two groups; None when there is no colon or the tail is no IPv4 address. */
  function Undotted(text: string): (r: Option<(string, Option<Octets>)>)
    ensures r.Some? && r.value.1.Some? ==> IsOctets(r.value.1.value)
  {
    var colon := LastIndexOf(text, ':');
    if colon == -1 then None
    else
      var tail := text[colon + 1..];
      if '.' !in tail then Some((text, None))
      else
        match ParseV4(tail)
        case None => None
        case Some(o) => Some((text[..colon + 1] + DottedTail(o), Some(o)))
  }

  function ParseV6(value: string): Option<V6> {
    match Undotted(Bare(value))
    case None => None
    case Some((text, dotted)) =>
      match ReadGroups(text)
      case None => None
      case Some(g) => Some(V6(g, dotted))
  }

  method ReadHalf(part: string) returns (r: Option<Groups>)
    ensures r == ToGroups(part)
  {
    if part == "" { return Some([]); }
    var chunks := Split(part, ':');
    var out: Groups := [];
    for i := 0 to |chunks|
      invariant |out| == i
      invariant forall k :: 0 <= k < i ==> IsChunk(chunks[k]) && out[k] == NumeralValue(chunks[k], 16)
    {
      if !IsChunk(chunks[i]) { return None; }
      out := out + [NumeralValue(chunks[i], 16)];
    }
    assert out == ChunksToGroups(chunks).value;
    return Some(out);
  }

  method ReadEightGroups(text: string) returns (r: Option<Groups>)
    ensures r == ReadGroups(text)
  {
    var halves := SplitDouble(text);
    if |halves| > 2 { return None; }
    var head := ReadHalf(halves[0]);
    if head.None? { return None; }
    if |halves| == 1 {
      return if |head.value| == 8 then head else None;
    }
    var back := ReadHalf(halves[1]);
    if back.None? || |head.value| + |back.value| > 8 { return None; }
    return Some(head.value + Fill(8 - |head.value| - |back.value|) + back.value);
  }

  method StripWrapping(value: string) returns (text: string)
    ensures text == Bare(value)
  {
    text := Lower(Trim(value));
    if |text| >= 2 && text[0] == '[' && text[|text| - 1] == ']' { text := text[1..|text| - 1]; }
    var zone := IndexOf(text, '%');
    text := text[..zone];
  }

  /** Rewrites a dotted tail as two groups. */
  method RewriteTail(bare: string) returns (r: Option<(string, Option<Octets>)>)
    ensures r == Undotted(bare)
  {
    var lastColon := LastIndexOf(bare, ':');
    if lastColon == -1 { return None; }
    var tail := bare[lastColon + 1..];
    if '.' !in tail { return Some((bare, None)); }
    var dotted := ParseIpv4(tail);
    if dotted.None? { return None; }
    return Some((bare[..lastColon + 1] + DottedTail(dotted.value), dotted));
  }

  method ParseIpv6(value: string) returns (r: Option<V6>)
    ensures r == ParseV6(value)
  {
    var bare := StripWrapping(value);
    var undotted := RewriteTail(bare);
    if undotted.None? { return None; }
    var groups := ReadEightGroups(undotted.value.0);
    if groups.None? { return None; }
    return Some(V6(groups.value, undotted.value.1));
  }

  lemma {:induction false} ChunkBound(c: string)
    requires |c| <= 4 && IsNumeral(c, 16)
    ensures NumeralValue(c, 16) < 0x1_0000
    ensures |c| <= 3 ==> NumeralValue(c, 16) < 0x1000
    ensures |c| <= 2 ==> NumeralValue(c, 16) < 0x100
    ensures |c| <= 1 ==> NumeralValue(c, 16) < 0x10
  {
    if c != "" {
      ChunkBound(c[..|c| - 1]);
    }
  }

  lemma ReadHalfBounds(part: string)
    requires ToGroups(part).Some?
    ensures forall i :: 0 <= i < |ToGroups(part).value| ==> ToGroups(part).value[i] < 0x1_0000
  {
    if part != "" {
      var chunks := Split(part, ':');
      forall i | 0 <= i < |chunks| ensures NumeralValue(chunks[i], 16) < 0x1_0000 {
        ChunkBound(chunks[i]);
      }
    }
  }

  lemma ReadGroupsBounds(text: string)
    requires ReadGroups(text).Some?
    ensures IsGroups(ReadGroups(text).value)
  {
    var halves := SplitDouble(text);
    ReadHalfBounds(halves[0]);
    if |halves| == 2 {
      ReadHalfBounds(halves[1]);
    }
  }

  // ------------------------------------------------- the dotted-tail shortcut

  /** Two chunks with a colon between them. */
  ghost predicate IsTail(tail: string, x: string, y: string) {
    && IsChunk(x) && IsChunk(y) && Split(tail, ':') == [x, y]
    && |tail| == |x| + 1 + |y| && forall k :: 0 <= k < |tail| ==> (tail[k] == ':' <==> k == |x|)
  }

  lemma MakesTail(x: string, y: string)
    requires IsChunk(x) && IsChunk(y)
    ensures IsTail(x + ":" + y, x, y)
  {
    SplitWhole(x, ':');
    SplitWhole(y, ':');
    SplitAtSeparator(x, ':', y);
  }

  predicate EndsIn<T(==)>(all: seq<T>, x: T, y: T) {
    |all| >= 2 && all[|all| - 2] == x && all[|all| - 1] == y
  }

  lemma AppendTail(front: string, tail: string, x: string, y: string)
    requires Split(tail, ':') == [x, y]
    ensures EndsIn(Split(front + [':'] + tail, ':'), x, y)
  {
    SplitAtSeparator(front, ':', tail);
  }

  /** Text that ends in such a tail, after nothing or after a colon, splits into chunks ending in those two. */
  lemma SplitEndsInTail(q: string, tail: string, x: string, y: string)
    requires Split(tail, ':') == [x, y] && (q == "" || q[|q| - 1] == ':')
    ensures EndsIn(Split(q + tail, ':'), x, y)
  {
    if q == "" {
      assert q + tail == tail;
    } else {
      AppendTail(q[..|q| - 1], tail, x, y);
      assert q[..|q| - 1] + [':'] == q;
    }
  }

  lemma ChunksEndIn(part: string, x: string, y: string)
    requires part != "" && EndsIn(Split(part, ':'), x, y) && IsChunk(x) && IsChunk(y)
    ensures ToGroups(part).Some? ==> EndsIn(ToGroups(part).value, NumeralValue(x, 16), NumeralValue(y, 16))
  {
  }

  lemma HalfEndsInTail(q: string, tail: string, x: string, y: string)
    requires IsTail(tail, x, y) && (q == "" || q[|q| - 1] == ':')
    ensures var half := ToGroups(q + tail);
            half.Some? ==> EndsIn(half.value, NumeralValue(x, 16), NumeralValue(y, 16))
  {
    SplitEndsInTail(q, tail, x, y);
    ChunksEndIn(q + tail, x, y);
  }

  /** A `::` never reaches into such a tail. */
  lemma DoubleColonBeforeTail(p: string, tail: string, x: string, y: string)
    requires p != "" && p[|p| - 1] == ':' && IsTail(tail, x, y)
    ensures DoubleColon(p + tail) == |p + tail| || DoubleColon(p + tail) + 2 <= |p|
  {
    var s := p + tail;
    forall k | |p| <= k < |s| ensures s[k] == tail[k - |p|] {
    }
  }

  /** The part of the text behind a `::`, or all of it, ends in the address's last groups. */
  function LastHalf(s: string): string {
    if DoubleColon(s) == |s| then s else s[DoubleColon(s) + 2..]
  }

  lemma LastHalfIsLast(s: string)
    ensures |SplitDouble(s)| <= 2 ==> SplitDouble(s)[|SplitDouble(s)| - 1] == LastHalf(s)
  {
    if DoubleColon(s) < |s| {
      assert SplitDouble(s)[1..] == SplitDouble(LastHalf(s));
    }
  }

  lemma LastHalfDecides(s: string, hi: nat, lo: nat)
    requires ReadGroups(s).Some?
    requires ToGroups(LastHalf(s)).Some? ==> EndsIn(ToGroups(LastHalf(s)).value, hi, lo)
    ensures EndsIn(ReadGroups(s).value, hi, lo) && |ReadGroups(s).value| == 8
  {
    LastHalfIsLast(s);
  }

  lemma GroupsEndInTail(p: string, tail: string, x: string, y: string)
    requires p != "" && p[|p| - 1] == ':' && IsTail(tail, x, y)
    requires ReadGroups(p + tail).Some?
    ensures var g := ReadGroups(p + tail).value;
            |g| == 8 && g[6] == NumeralValue(x, 16) && g[7] == NumeralValue(y, 16)
  {
    var s := p + tail;
    DoubleColonBeforeTail(p, tail, x, y);
    var i := DoubleColon(s);
    if i == |s| {
      HalfEndsInTail(p, tail, x, y);
    } else {
      assert s[i + 2..] == p[i + 2..] + tail;
      HalfEndsInTail(p[i + 2..], tail, x, y);
    }
    LastHalfDecides(s, NumeralValue(x, 16), NumeralValue(y, 16));
  }

  function TailOctets(g: Groups): Octets
    requires IsGroups(g)
  {
    [g[6] / 256, g[6] % 256, g[7] / 256, g[7] % 256]
  }

  lemma PairChunk(a: nat, b: nat)
    requires a < 256 && b < 256
    ensures var x := Numeral(a * 256 + b, 16);
            IsChunk(x) && NumeralValue(x, 16) == a * 256 + b
  {
    HexLength(a * 256 + b);
    NumeralRoundTrip(a * 256 + b, 16);
  }

  lemma TailOctetsAre(g: Groups, o: Octets)
    requires IsGroups(g) && IsOctets(o) && g[6] == o[0] * 256 + o[1] && g[7] == o[2] * 256 + o[3]
    ensures TailOctets(g) == o
  {
  }

  lemma DottedTailIsTail(o: Octets) returns (x: string, y: string)
    requires IsOctets(o)
    ensures IsTail(DottedTail(o), x, y)
    ensures NumeralValue(x, 16) == o[0] * 256 + o[1] && NumeralValue(y, 16) == o[2] * 256 + o[3]
  {
    x, y := Numeral(o[0] * 256 + o[1], 16), Numeral(o[2] * 256 + o[3], 16);
    PairChunk(o[0], o[1]);
    PairChunk(o[2], o[3]);
    MakesTail(x, y);
  }

  lemma TailGivesOctets(p: string, tail: string, o: Octets)
    requires p != "" && p[|p| - 1] == ':' && IsOctets(o) && tail == DottedTail(o) && ReadGroups(p + tail).Some?
    ensures IsGroups(ReadGroups(p + tail).value) && TailOctets(ReadGroups(p + tail).value) == o
  {
    var x, y := DottedTailIsTail(o);
    ReadGroupsBounds(p + tail);
    GroupsEndInTail(p, tail, x, y);
    TailOctetsAre(ReadGroups(p + tail).value, o);
  }

  lemma UndottedShape(text: string, rewritten: string, o: Octets) returns (p: string)
    requires Undotted(text) == Some((rewritten, Some(o)))
    ensures p != "" && p[|p| - 1] == ':' && IsOctets(o) && rewritten == p + DottedTail(o)
  {
    p := text[..LastIndexOf(text, ':') + 1];
  }

  lemma RewrittenTailAgrees(text: string, rewritten: string, o: Octets)
    requires Undotted(text) == Some((rewritten, Some(o))) && ReadGroups(rewritten).Some?
    ensures IsGroups(ReadGroups(rewritten).value) && o == TailOctets(ReadGroups(rewritten).value)
  {
    var p := UndottedShape(text, rewritten, o);
    TailGivesOctets(p, DottedTail(o), o);
  }

  /** What parsing yields is well formed, and a dotted tail is exactly the last two groups. */
  lemma DottedTailAgrees(value: string)
    requires ParseV6(value).Some?
    ensures var v := ParseV6(value).value;
            IsGroups(v.groups) && (v.dotted.Some? ==> v.dotted.value == TailOctets(v.groups))
  {
    var (rewritten, dotted) := Undotted(Bare(value)).value;
    ReadGroupsBounds(rewritten);
    if dotted.Some? {
      RewrittenTailAgrees(Bare(value), rewritten, dotted.value);
    }
  }

  // --------------------------------------------------------- classification

  datatype Reason =
    | LOOPBACK
    | PRIVATE
    | LINK_LOCAL
    | CLOUD_METADATA
    | UNSPECIFIED
    | MULTICAST
    | RESERVED
    | UNIQUE_LOCAL
    | MALFORMED

  datatype Verdict = Verdict(allowed: bool, reason: Option<Reason>, normalised: Option<string>)

  function Refuse(reason: Reason, text: string): Verdict {
    Verdict(false, Some(reason), Some(text))
  }

  const NOT_AN_ADDRESS := Verdict(false, Some(MALFORMED), None)

  function VerdictFor(reason: Option<Reason>, text: string): Verdict {
    match reason
    case Some(r) => Refuse(r, text)
    case None => Verdict(true, None, Some(text))
  }

  /** The first rule an IPv4 address triggers. */
  function ReasonV4(o: Octets): Option<Reason>
    requires |o| == 4
  {
    var (a, b, c, d) := (o[0], o[1], o[2], o[3]);
    if a == 0 then Some(UNSPECIFIED)
    else if a == 127 then Some(LOOPBACK)
    else if a == 10 then Some(PRIVATE)
    else if a == 172 && 16 <= b <= 31 then Some(PRIVATE)
    else if a == 192 && b == 168 then Some(PRIVATE)
    else if a == 100 && 64 <= b <= 127 then Some(PRIVATE)
    else if a == 169 && b == 254 then Some(if c == 169 && d == 254 then CLOUD_METADATA else LINK_LOCAL)
    else if a == 192 && b == 0 && c == 0 then Some(RESERVED)
    else if a == 192 && b == 0 && c == 2 then Some(RESERVED)
    else if a == 198 && (b == 18 || b == 19) then Some(RESERVED)
    else if a == 198 && b == 51 && c == 100 then Some(RESERVED)
    else if a == 203 && b == 0 && c == 113 then Some(RESERVED)
    else if 224 <= a <= 239 then Some(MULTICAST)
    else if a >= 240 then Some(RESERVED)
    else None
  }

  function ClassifyV4(o: Octets): (v: Verdict)
    requires |o| == 4
    ensures v.normalised == Some(V4Text(o)) && (v.allowed <==> v.reason.None?)
  {
    VerdictFor(ReasonV4(o), V4Text(o))
  }

  predicate ZeroUpTo(g: Groups, n: nat)
    requires n <= |g|
  {
    forall i :: 0 <= i < n ==> g[i] == 0
  }

  predicate V4Mapped(g: Groups)
    requires IsGroups(g)
  {
    ZeroUpTo(g, 5) && g[5] == 0xffff
  }

  predicate V4Compatible(g: Groups)
    requires IsGroups(g)
  {
    ZeroUpTo(g, 6)
  }

  /** `::` and `::1`, which embed no IPv4 address. */
  function ReasonOfLowest(g: Groups): Option<Reason>
    requires IsGroups(g)
  {
    if ZeroUpTo(g, 8) then Some(UNSPECIFIED)
    else if ZeroUpTo(g, 7) && g[7] == 1 then Some(LOOPBACK)
    else None
  }

  /** The first rule that an IPv6 address of its own triggers. */
  function ReasonV6(g: Groups): Option<Reason>
    requires IsGroups(g)
  {
    if g[0] == 0xfd00 && g[1] == 0x0ec2 && (forall i :: 2 <= i < 7 ==> g[i] == 0) && g[7] == 0x254 then
      Some(CLOUD_METADATA)
    else if g[0] == 0x64 && g[1] == 0xff9b then Some(RESERVED)
    else if g[0] / 0x200 * 0x200 == 0xfc00 then Some(UNIQUE_LOCAL)
    else if g[0] / 0x40 * 0x40 == 0xfe80 then Some(LINK_LOCAL)
    else if g[0] / 0x100 * 0x100 == 0xff00 then Some(MULTICAST)
    else if g[0] == 0x2001 && g[1] == 0x0db8 then Some(RESERVED)
    else if g[0] == 0x0100 && g[1] == 0 then Some(RESERVED)
    else None
  }

  function ClassifyV6(g: Groups, dotted: Option<Octets>): (v: Verdict)
    requires IsGroups(g) && (dotted.Some? ==> |dotted.value| == 4)
    ensures v.normalised.Some? && (v.allowed <==> v.reason.None?)
  {
    if ReasonOfLowest(g).Some? then VerdictFor(ReasonOfLowest(g), TextOf(g))
    else if dotted.Some? && (V4Mapped(g) || V4Compatible(g)) then ClassifyV4(dotted.value)
    else if V4Mapped(g) || V4Compatible(g) then ClassifyV4(TailOctets(g))
    else VerdictFor(ReasonV6(g), TextOf(g))
  }

  function ClassifyAddress(ip: string): (v: Verdict)
    ensures v.allowed ==> v.normalised.Some?
  {
    var value := Trim(ip);
    if value == "" then NOT_AN_ADDRESS
    else
      match ParseV4(value)
      case Some(o) => ClassifyV4(o)
      case None =>
        match ParseV6(value)
        case Some(v) => DottedTailAgrees(value); ClassifyV6(v.groups, v.dotted)
        case None => NOT_AN_ADDRESS
  }

  // -------------------------------------------------------- where it leads

  /** The address a spelling leads to: an embedded IPv4 address is that IPv4 address. */
  datatype Reached = Four(octets: Octets) | Six(groups: Groups)

  predicate EmbedsV4(g: Groups)
    requires IsGroups(g)
  {
    (V4Mapped(g) || V4Compatible(g)) && !ZeroUpTo(g, 8) && !(ZeroUpTo(g, 7) && g[7] == 1)
  }

  predicate IsReached(r: Reached) {
    match r
    case Four(o) => IsOctets(o)
    case Six(g) => IsGroups(g) && !EmbedsV4(g)
  }

  function LeadsTo(g: Groups): (r: Reached)
    requires IsGroups(g)
    ensures IsReached(r)
  {
    if EmbedsV4(g) then Four(TailOctets(g)) else Six(g)
  }

  /** Which address a spelling names; None when it names none. */
  function Resolve(ip: string): (r: Option<Reached>)
    ensures r.Some? ==> IsReached(r.value)
  {
    var value := Trim(ip);
    match ParseV4(value)
    case Some(o) => Some(Four(o))
    case None =>
      match ParseV6(value)
      case Some(v) => DottedTailAgrees(value); Some(LeadsTo(v.groups))
      case None => None
  }

  function VerdictOn(r: Reached): Verdict
    requires IsReached(r)
  {
    match r
    case Four(o) => ClassifyV4(o)
    case Six(g) => ClassifyV6(g, None)
  }

  function Name(r: Reached): string
    requires IsReached(r)
  {
    match r
    case Four(o) => V4Text(o)
    case Six(g) => TextOf(g)
  }

  lemma VerdictNames(r: Reached)
    requires IsReached(r)
    ensures VerdictOn(r).normalised == Some(Name(r))
  {
  }

  /** The dotted spelling of an embedded address gets the verdict of its groups. */
  lemma GroupsDecide(g: Groups, dotted: Option<Octets>)
    requires IsGroups(g) && (dotted.Some? ==> dotted.value == TailOctets(g))
    ensures ClassifyV6(g, dotted) == VerdictOn(LeadsTo(g))
  {
  }

  lemma EmptyIsNoAddress()
    ensures ParseV4("") == None && ParseV6("") == None
  {
    SplitWhole("", '.');
  }

  /** Classification looks only at the address reached; it names that address canonically, or refuses as malformed. */
  lemma ClassifiedByAddressReached(ip: string)
    ensures ClassifyAddress(ip) ==
            match Resolve(ip)
            case None => NOT_AN_ADDRESS
            case Some(r) => VerdictOn(r)
    ensures ClassifyAddress(ip).normalised ==
            match Resolve(ip)
            case None => None
            case Some(r) => Some(Name(r))
  {
    var value := Trim(ip);
    if value == "" {
      EmptyIsNoAddress();
    } else if ParseV4(value).None? && ParseV6(value).Some? {
      DottedTailAgrees(value);
      GroupsDecide(ParseV6(value).value.groups, ParseV6(value).value.dotted);
    }
    if Resolve(ip).Some? {
      VerdictNames(Resolve(ip).value);
    }
  }

  lemma PlainTextIsBare(s: string)
    requires Plain(s) && s != ""
    ensures Trim(s) == s && Bare(s) == s && '.' !in s
  {
    forall k | 0 <= k < |s| ensures !IsSpace(s[k]) && LowerChar(s[k]) == s[k] && s[k] != '[' && s[k] != '%' {
      assert IsHexOrColon(s[k]);
    }
    TrimmedStays(s);
    assert Lower(s) == s;
    assert IndexOf(s, '%') == |s|;
  }

  lemma NameParses(r: Reached)
    requires IsReached(r)
    ensures r.Four? ==> ParseV4(Name(r)) == Some(r.octets)
    ensures r.Six? ==> ParseV4(Name(r)) == None && ParseV6(Name(r)) == Some(V6(r.groups, None))
  {
    if r.Four? {
      PrintThenReadV4(r.octets);
    } else {
      PrintThenParse(r.groups);
    }
  }

  lemma SixNameParses(g: Groups, s: string)
    requires ReadGroups(s) == Some(g) && Plain(s) && ':' in s
    ensures ParseV4(s) == None && ParseV6(s) == Some(V6(g, None))
  {
    PlainTextIsBare(s);
    NoDotNoOctets(s);
    PlainIsUndotted(s);
    UndottedParses(s, g);
  }

  /** The printed text of all eight groups, those that embed an IPv4 address included, parses as those groups. */
  lemma PrintThenParse(g: Groups)
    requires IsGroups(g)
    ensures ParseV4(TextOf(g)) == None && ParseV6(TextOf(g)) == Some(V6(g, None))
  {
    PrintThenRead(g);
    SixNameParses(g, TextOf(g));
  }

  lemma UndottedParses(s: string, g: Groups)
    requires Bare(s) == s && Undotted(s) == Some((s, None)) && ReadGroups(s) == Some(g)
    ensures ParseV6(s) == Some(V6(g, None))
  {
  }

  lemma NoDotNoOctets(s: string)
    requires '.' !in s
    ensures ParseV4(s) == None
  {
    SplitWhole(s, '.');
  }

  lemma PlainIsUndotted(s: string)
    requires '.' !in s && ':' in s
    ensures Undotted(s) == Some((s, None))
  {
    assert LastIndexOf(s, ':') != -1;
    assert '.' !in s[LastIndexOf(s, ':') + 1..];
  }

  lemma NameIsTrim(r: Reached)
    requires IsReached(r)
    ensures Name(r) != "" && Trim(Name(r)) == Name(r)
    ensures '.' in Name(r) <==> r.Four?
    ensures forall k :: 0 <= k < |Name(r)| ==> IsHexOrColon(Name(r)[k]) || Name(r)[k] == '.'
  {
    var s := Name(r);
    if r.Four? {
      PrintThenReadV4(r.octets);
      assert s != "";
      assert IsDigitOrDot(s[0]) && IsDigitOrDot(s[|s| - 1]);
      TrimmedStays(s);
    } else {
      PrintThenRead(r.groups);
      PlainTextIsBare(s);
    }
  }

  /** The canonical name of an address leads back to it. */
  lemma NameResolves(r: Reached)
    requires IsReached(r)
    ensures Resolve(Name(r)) == Some(r)
  {
    NameIsTrim(r);
    NameParses(r);
  }

  /** The normalised text is a fixed point: it gets the verdict of every spelling it stands for. */
  lemma NormalisedIsFixedPoint(ip: string)
    requires ClassifyAddress(ip).normalised.Some?
    ensures ClassifyAddress(ClassifyAddress(ip).normalised.value) == ClassifyAddress(ip)
  {
    ClassifiedByAddressReached(ip);
    var r := Resolve(ip).value;
    NameResolves(r);
    ClassifiedByAddressReached(Name(r));
  }

  // --------------------------------------------------------------- as numbers

  datatype Number = Number(family: nat, value: nat)

  predicate IsBase(base: nat) {
    base == 256 || base == 0x1_0000
  }

  function Fold(digits: seq<nat>, base: nat): nat {
    if digits == [] then 0 else Fold(digits[..|digits| - 1], base) * base + digits[|digits| - 1]
  }

  /** The last n base-`base` digits of a value. */
  function Digits(value: nat, base: nat, n: nat): (d: seq<nat>)
    requires IsBase(base)
    ensures |d| == n && forall i :: 0 <= i < n ==> d[i] < base
  {
    if n == 0 then [] else Digits(value / base, base, n - 1) + [value % base]
  }

  lemma LastDigit(q: nat, d: nat, base: nat)
    requires IsBase(base) && d < base
    ensures (q * base + d) / base == q && (q * base + d) % base == d
  {
    if base == 256 {
      assert (q * 256 + d) / 256 == q;
    } else {
      assert (q * 0x1_0000 + d) / 0x1_0000 == q;
    }
  }

  lemma {:induction false} FoldDigits(digits: seq<nat>, base: nat)
    requires IsBase(base) && forall i :: 0 <= i < |digits| ==> digits[i] < base
    ensures Digits(Fold(digits, base), base, |digits|) == digits
  {
    if digits != [] {
      var n := |digits| - 1;
      FoldDigits(digits[..n], base);
      LastDigit(Fold(digits[..n], base), digits[n], base);
      assert digits == digits[..n] + [digits[n]];
    }
  }

  function NumberOf(r: Reached): Number
    requires IsReached(r)
  {
    match r
    case Four(o) => Number(4, Fold(o, 256))
    case Six(g) => Number(6, Fold(g, 0x1_0000))
  }

  /** The number of the address a spelling leads to, found by parsing its canonical name again. */
  function ToAddressNumber(ip: string): Option<Number> {
    match ClassifyAddress(ip).normalised
    case None => None
    case Some(name) =>
      match ParseV4(name)
      case Some(o) => Some(Number(4, Fold(o, 256)))
      case None =>
        match ParseV6(name)
        case Some(v) => Some(Number(6, Fold(v.groups, 0x1_0000)))
        case None => None
  }

  lemma NumberOfAddressReached(ip: string)
    ensures ToAddressNumber(ip) ==
            match Resolve(ip)
            case None => None
            case Some(r) => Some(NumberOf(r))
  {
    ClassifiedByAddressReached(ip);
    if Resolve(ip).Some? {
      var r := Resolve(ip).value;
      NameParses(r);
    }
  }

  lemma NumberIsInjective(a: Reached, b: Reached)
    requires IsReached(a) && IsReached(b) && NumberOf(a) == NumberOf(b)
    ensures a == b
  {
    match a
    case Four(o) => FoldDigits(o, 256); FoldDigits(b.octets, 256);
    case Six(g) => FoldDigits(g, 0x1_0000); FoldDigits(b.groups, 0x1_0000);
  }

  /**
   * Classification depends only on the address reached: two spellings with the
   * same number get the same verdict, reason and normalised text, and two with
   * the same normalised text have the same number.
   */
  lemma SameNumberSameVerdict(a: string, b: string)
    requires ToAddressNumber(a).Some? && ToAddressNumber(b).Some?
    ensures ToAddressNumber(a) == ToAddressNumber(b) ==> ClassifyAddress(a) == ClassifyAddress(b)
    ensures ClassifyAddress(a).normalised == ClassifyAddress(b).normalised ==> ToAddressNumber(a) == ToAddressNumber(b)
  {
    NumberOfAddressReached(a);
    NumberOfAddressReached(b);
    ClassifiedByAddressReached(a);
    ClassifiedByAddressReached(b);
    if ToAddressNumber(a) == ToAddressNumber(b) {
      NumberIsInjective(Resolve(a).value, Resolve(b).value);
    }
  }
}
