/** The network blocklist: canonical patterns, and the matching that parses them again. */
module Blocklist {
  import opened Options
  import opened Text
  import opened Ipv6Text
  import opened Address
  import opened Powers

  // --------------------------------------------------- addresses as numbers

  predicate IsAddressNumber(n: Number) {
    || (n.family == 4 && n.value < 0x1_0000_0000)
    || (n.family == 6 && n.value < 0x1_0000_0000_0000_0000_0000_0000_0000_0000 && ReallyV6(n.value))
  }

  lemma FoldFour(o: Octets)
    requires |o| == 4
    ensures Fold(o, 256) == ((o[0] * 256 + o[1]) * 256 + o[2]) * 256 + o[3]
  {
    assert Fold(o[..1][..0], 256) == 0;
    assert o[..2][..1] == o[..1] && o[..3][..2] == o[..2] && o[..4][..3] == o[..3] && o[..4] == o;
    assert Fold(o[..1], 256) == o[0];
    assert Fold(o[..2], 256) == o[0] * 256 + o[1];
    assert Fold(o[..3], 256) == (o[0] * 256 + o[1]) * 256 + o[2];
  }

  lemma FoldHalf(g: Groups, n: nat)
    requires 0 < n <= |g|
    ensures Fold(g[..n], 0x1_0000) == Fold(g[..n - 1], 0x1_0000) * 0x1_0000 + g[n - 1]
  {
    assert g[..n][..n - 1] == g[..n - 1];
  }

  /** The value of eight groups, its upper 96 bits and its lower 32. */
  lemma FoldEight(g: Groups)
    requires IsGroups(g)
    ensures var v := Fold(g, 0x1_0000);
            && v < 0x1_0000_0000_0000_0000_0000_0000_0000_0000
            && (V4Compatible(g) <==> v / 0x1_0000_0000 == 0)
            && (V4Mapped(g) <==> v / 0x1_0000_0000 == 0xffff)
            && (ZeroUpTo(g, 8) <==> v == 0)
            && (ZeroUpTo(g, 7) && g[7] == 1 <==> v == 1)
  {
    assert g[..8] == g;
    FoldHalf(g, 1); FoldHalf(g, 2); FoldHalf(g, 3); FoldHalf(g, 4);
    FoldHalf(g, 5); FoldHalf(g, 6); FoldHalf(g, 7); FoldHalf(g, 8);
    var upper := Fold(g[..6], 0x1_0000);
    assert Fold(g, 0x1_0000) == upper * 0x1_0000_0000 + (g[6] * 0x1_0000 + g[7]);
    assert Fold(g, 0x1_0000) / 0x1_0000_0000 == upper;
    var five := Fold(g[..5], 0x1_0000);
    assert five == ((((g[0] * 0x1_0000 + g[1]) * 0x1_0000 + g[2]) * 0x1_0000 + g[3]) * 0x1_0000 + g[4]);
    assert five == 0 <==> ZeroUpTo(g, 5);
    assert upper == five * 0x1_0000 + g[5];
  }

  lemma ReachedIsNumber(r: Reached)
    requires IsReached(r)
    ensures IsAddressNumber(NumberOf(r))
  {
    match r
    case Four(o) => FoldFour(o);
    case Six(g) => FoldEight(g);
  }

  function Power(base: nat, n: nat): nat {
    if n == 0 then 1 else Power(base, n - 1) * base
  }

  lemma {:induction false} DigitsFold(v: nat, base: nat, n: nat)
    requires IsBase(base) && v < Power(base, n)
    ensures Fold(Digits(v, base, n), base) == v
  {
    if n > 0 {
      var p := Power(base, n - 1);
      assert v / base < p by {
        if base == 256 { assert v < p * 256; } else { assert v < p * 0x1_0000; }
      }
      DigitsFold(v / base, base, n - 1);
      var d := Digits(v, base, n);
      assert d[..n - 1] == Digits(v / base, base, n - 1);
      assert v / base * base + v % base == v;
    }
  }

  /** The address a number stands for. */
  function AddressOf(n: Number): (r: Reached)
    requires IsAddressNumber(n)
  {
    if n.family == 4 then Four(Digits(n.value, 256, 4)) else Six(Digits(n.value, 0x1_0000, 8))
  }

  lemma AddressOfNumber(n: Number)
    requires IsAddressNumber(n)
    ensures IsReached(AddressOf(n)) && NumberOf(AddressOf(n)) == n
  {
    if n.family == 4 {
      assert Power(256, 4) == 0x1_0000_0000;
      DigitsFold(n.value, 256, 4);
    } else {
      assert Power(0x1_0000, 4) == 0x1_0000_0000_0000_0000;
      assert Power(0x1_0000, 8) == 0x1_0000_0000_0000_0000_0000_0000_0000_0000;
      DigitsFold(n.value, 0x1_0000, 8);
      FoldEight(Digits(n.value, 0x1_0000, 8));
    }
  }

  function FormatAddress(n: Number): string {
    if n.family == 4 then V4Text(Digits(n.value, 256, 4)) else TextOf(Digits(n.value, 0x1_0000, 8))
  }

  /** Formatting a number and reading it back gives the number. */
  lemma FormatReads(n: Number)
    requires IsAddressNumber(n)
    ensures IsReached(AddressOf(n)) && FormatAddress(n) == Name(AddressOf(n))
    ensures ToAddressNumber(FormatAddress(n)) == Some(n)
  {
    AddressOfNumber(n);
    NameResolves(AddressOf(n));
    NumberOfAddressReached(FormatAddress(n));
  }

  lemma NumbersAreAddresses(ip: string)
    ensures ToAddressNumber(ip).Some? ==> IsAddressNumber(ToAddressNumber(ip).value)
  {
    NumberOfAddressReached(ip);
    if Resolve(ip).Some? {
      ReachedIsNumber(Resolve(ip).value);
    }
  }

  lemma {:induction false} DigitByShift(v: nat, n: nat, i: nat)
    requires i < n
    ensures Digits(v, 0x1_0000, n)[i] == Quot(v, Pow2(16 * (n - 1 - i))) % 0x1_0000
  {
    if i < n - 1 {
      var k := 16 * (n - 2 - i);
      DigitByShift(v / 0x1_0000, n - 1, i);
      Pow2Values();
      Pow2Adds(16, k);
      QuotQuot(v, 0x1_0000, Pow2(k));
    } else {
      QuotIsUnique(v, Pow2(0), v);
    }
  }

  /** The groups of a value, taken off by shifting, and its canonical text. */
  method CanonicalText(value: nat) returns (text: string)
    ensures text == TextOf(Digits(value, 0x1_0000, 8))
  {
    var groups: Groups := [];
    var shift := 112;
    while shift >= 0
      invariant -16 <= shift <= 112 && shift == 112 - 16 * |groups|
      invariant forall i :: 0 <= i < |groups| ==> groups[i] == Digits(value, 0x1_0000, 8)[i]
    {
      DigitByShift(value, 8, |groups|);
      groups := groups + [Quot(value, Pow2(shift)) % 0x1_0000];
      shift := shift - 16;
    }
    assert groups == Digits(value, 0x1_0000, 8);
    text := CanonicalIpv6(groups);
  }

  // ---------------------------------------------------------------- patterns

  function Width(family: nat): nat {
    if family == 4 then 32 else 128
  }

  datatype Cidr = Cidr(base: Number, bits: nat) {
    function HostBits(): nat {
      if bits <= Width(base.family) then Width(base.family) - bits else 0
    }

    /** The base is the network address of the block. */
    predicate IsBlock() {
      IsAddressNumber(base) && bits <= Width(base.family) && Masked(base.value, HostBits()) == base.value
    }
  }

  datatype Range = Range(start: Number, end: Number) {
    predicate IsProper() {
      IsAddressNumber(start) && IsAddressNumber(end) && start.family == end.family && start.value <= end.value
    }
  }

  predicate IsPrefixLength(s: string) {
    1 <= |s| <= 3 && IsNumeral(s, 10)
  }

  /** The address text and the prefix length either side of the last slash. */
  function CidrParts(pattern: string): Option<(string, nat)> {
    var slash := LastIndexOf(pattern, '/');
    if slash == -1 then None
    else
      var prefix := Trim(pattern[slash + 1..]);
      if IsPrefixLength(prefix) then Some((pattern[..slash], NumeralValue(prefix, 10))) else None
  }

  /** The block around a base address, canonicalised to its network address. */
  function BlockAround(base: Option<Number>, bits: nat): Option<Cidr> {
    match base
    case None => None
    case Some(n) =>
      if bits > Width(n.family) then None
      else Some(Cidr(n.(value := Masked(n.value, Width(n.family) - bits)), bits))
  }

  function ParseCidr(pattern: string): Option<Cidr> {
    match CidrParts(pattern)
    case None => None
    case Some((address, bits)) => BlockAround(ToAddressNumber(address), bits)
  }

  function CidrText(c: Cidr): string {
    FormatAddress(c.base) + "/" + Numeral(c.bits, 10)
  }

  function RangeOf(start: Option<Number>, end: Option<Number>): Option<Range> {
    if start.None? || end.None? then None
    else if start.value.family != end.value.family || start.value.value > end.value.value then None
    else Some(Range(start.value, end.value))
  }

  function ParseRange(pattern: string): Option<Range> {
    var parts := Split(pattern, '-');
    if |parts| != 2 then None else RangeOf(ToAddressNumber(parts[0]), ToAddressNumber(parts[1]))
  }

  function RangeText(r: Range): string {
    FormatAddress(r.start) + "-" + FormatAddress(r.end)
  }

  predicate IsLabelEnd(c: char) {
    'a' <= c <= 'z' || '0' <= c <= '9' || c == '_'
  }

  /** One to 63 letters, digits, underscores and, inside, hyphens. */
  predicate IsLabel(s: string) {
    && 1 <= |s| <= 63 && IsLabelEnd(s[0]) && IsLabelEnd(s[|s| - 1])
    && forall k :: 0 <= k < |s| ==> IsLabelEnd(s[k]) || s[k] == '-'
  }

  function WithoutFinalDot(s: string): string {
    if s != "" && s[|s| - 1] == '.' then s[..|s| - 1] else s
  }

  function NormaliseHostname(value: string): Option<string> {
    var host := WithoutFinalDot(Lower(Trim(value)));
    if host == "" || |host| > 253 then None
    else if forall i :: 0 <= i < |Split(host, '.')| ==> IsLabel(Split(host, '.')[i]) then Some(host)
    else None
  }

  /** `value.replace(/^\*?\./, '')`. */
  function WithoutWildcard(s: string): string {
    if |s| >= 1 && s[0] == '.' then s[1..]
    else if |s| >= 2 && s[0] == '*' && s[1] == '.' then s[2..]
    else s
  }

  datatype Problem = UNSUPPORTED_TYPE | MALFORMED_HOST | MALFORMED_CIDR | MALFORMED_RANGE

  datatype Parsed = Accepted(pattern: string) | Rejected(problem: Problem)

  function ParseBlocklistPattern(patternType: string, pattern: string): Parsed {
    var value := Trim(pattern);
    if patternType == "HOST_SUFFIX" then
      match NormaliseHostname(WithoutWildcard(value))
      case Some(host) => Accepted(host)
      case None => Rejected(MALFORMED_HOST)
    else if patternType == "CIDR" then
      match ParseCidr(value)
      case Some(c) => Accepted(CidrText(c))
      case None => Rejected(MALFORMED_CIDR)
    else if patternType == "IP_RANGE" then
      match ParseRange(value)
      case Some(r) => Accepted(RangeText(r))
      case None => Rejected(MALFORMED_RANGE)
    else Rejected(UNSUPPORTED_TYPE)
  }

  // ------------------------------------------------------------- idempotence

  predicate IsAddressChar(c: char) {
    IsHexOrColon(c) || c == '.'
  }

  lemma FormatIsPlain(n: Number)
    requires IsAddressNumber(n)
    ensures IsAddressText(FormatAddress(n))
  {
    FormatReads(n);
    NameIsTrim(AddressOf(n));
  }

  lemma BlocksAreBlocks(base: Option<Number>, bits: nat)
    requires base.Some? ==> IsAddressNumber(base.value)
    ensures BlockAround(base, bits).Some? ==> BlockAround(base, bits).value.IsBlock()
    ensures base.Some? && Cidr(base.value, bits).IsBlock() ==> BlockAround(base, bits) == Some(Cidr(base.value, bits))
  {
    if base.Some? && bits <= Width(base.value.family) {
      var h := Width(base.value.family) - bits;
      MaskedQuotient(base.value.value, h);
      if base.value.family == 6 {
        MaskingKeepsFamily(base.value.value, h);
      }
    }
  }

  lemma ParsedCidrIsBlock(pattern: string)
    ensures ParseCidr(pattern).Some? ==> ParseCidr(pattern).value.IsBlock()
  {
    match CidrParts(pattern)
    case None =>
    case Some((address, bits)) =>
      NumbersAreAddresses(address);
      BlocksAreBlocks(ToAddressNumber(address), bits);
  }

  predicate IsAddressText(s: string) {
    s != "" && forall k :: 0 <= k < |s| ==> IsAddressChar(s[k])
  }

  lemma NumeralText(s: string)
    requires s != "" && IsNumeral(s, 10)
    ensures Trim(s) == s && '/' !in s && !IsSpace(s[|s| - 1])
  {
    assert IsDigit(s[0], 10) && IsDigit(s[|s| - 1], 10);
    TrimmedStays(s);
  }

  lemma PrefixReads(bits: nat)
    requires bits <= 128
    ensures IsPrefixLength(Numeral(bits, 10)) && NumeralValue(Numeral(bits, 10), 10) == bits
  {
    DecimalLength(bits);
    NumeralRoundTrip(bits, 10);
  }

  lemma PartsOfCidrText(a: string, s: string)
    requires IsAddressText(a) && IsPrefixLength(s)
    ensures CidrParts(a + "/" + s) == Some((a, NumeralValue(s, 10)))
    ensures Trim(a + "/" + s) == a + "/" + s
  {
    var text := a + "/" + s;
    NumeralText(s);
    assert text[|a| + 1..] == s && text[..|a|] == a && text[|a|] == '/';
    LastIndexIs(text, '/', |a|);
    assert text[0] == a[0] && IsAddressChar(a[0]);
    assert text[|text| - 1] == s[|s| - 1];
    TrimmedStays(text);
  }

  lemma CidrTextParses(c: Cidr)
    requires c.IsBlock()
    ensures ParseCidr(CidrText(c)) == Some(c) && Trim(CidrText(c)) == CidrText(c)
  {
    FormatIsPlain(c.base);
    PrefixReads(c.bits);
    PartsOfCidrText(FormatAddress(c.base), Numeral(c.bits, 10));
    FormatReads(c.base);
    BlocksAreBlocks(Some(c.base), c.bits);
  }

  lemma ParsedRangeIsProper(pattern: string)
    ensures ParseRange(pattern).Some? ==> ParseRange(pattern).value.IsProper()
  {
    var parts := Split(pattern, '-');
    if |parts| == 2 {
      NumbersAreAddresses(parts[0]);
      NumbersAreAddresses(parts[1]);
    }
  }

  lemma PartsOfRangeText(a: string, b: string)
    requires IsAddressText(a) && IsAddressText(b)
    ensures Split(a + "-" + b, '-') == [a, b] && Trim(a + "-" + b) == a + "-" + b
  {
    var text := a + "-" + b;
    assert text == a + ['-'] + b;
    SplitAtSeparator(a, '-', b);
    SplitWhole(a, '-');
    SplitWhole(b, '-');
    assert text[0] == a[0] && IsAddressChar(a[0]);
    assert text[|text| - 1] == b[|b| - 1] && IsAddressChar(b[|b| - 1]);
    TrimmedStays(text);
  }

  lemma RangeTextParses(r: Range)
    requires r.IsProper()
    ensures ParseRange(RangeText(r)) == Some(r) && Trim(RangeText(r)) == RangeText(r)
  {
    FormatIsPlain(r.start);
    FormatIsPlain(r.end);
    PartsOfRangeText(FormatAddress(r.start), FormatAddress(r.end));
    FormatReads(r.start);
    FormatReads(r.end);
  }

  predicate IsHost(host: string) {
    host != "" && |host| <= 253 && forall i :: 0 <= i < |Split(host, '.')| ==> IsLabel(Split(host, '.')[i])
  }

  predicate IsHostChar(c: char) {
    IsLabelEnd(c) || c == '-' || c == '.'
  }

  lemma CleanText(host: string)
    requires host != "" && IsLabelEnd(host[0]) && IsLabelEnd(host[|host| - 1])
    requires forall k :: 0 <= k < |host| ==> IsHostChar(host[k])
    ensures Trim(host) == host && Lower(host) == host
    ensures WithoutWildcard(host) == host && WithoutFinalDot(host) == host
  {
    forall k | 0 <= k < |host| ensures LowerChar(host[k]) == host[k] {
      assert IsHostChar(host[k]);
    }
    assert Lower(host) == host;
    TrimmedStays(host);
  }

  lemma FirstLabel(host: string)
    requires host != "" && IsLabel(Split(host, '.')[0])
    ensures IsLabelEnd(host[0])
  {
  }

  lemma LastPiece(front: string, last: string)
    requires '.' !in last
    ensures var pieces := Split(front + ['.'] + last, '.'); pieces[|pieces| - 1] == last
  {
    SplitAtSeparator(front, '.', last);
    SplitWhole(last, '.');
  }

  lemma CutAt(host: string, dot: nat) returns (front: string, last: string)
    requires dot < |host| && host[dot] == '.'
    ensures front == host[..dot] && last == host[dot + 1..] && host == front + ['.'] + last
  {
    front, last := host[..dot], host[dot + 1..];
  }

  /** The last label is what stands behind the last dot. */
  lemma LastPieceOf(host: string) returns (front: string, last: string)
    ensures host == front + last && last == Split(host, '.')[|Split(host, '.')| - 1]
  {
    var dot := LastIndexOf(host, '.');
    if dot >= 0 {
      front, last := CutAt(host, dot);
      LastPiece(front, last);
      front := front + ['.'];
    } else {
      SplitWhole(host, '.');
      front, last := "", host;
    }
  }

  lemma LastLabel(host: string)
    requires host != "" && IsLabel(Split(host, '.')[|Split(host, '.')| - 1])
    ensures IsLabelEnd(host[|host| - 1])
  {
    var front, last := LastPieceOf(host);
    assert last[|last| - 1] == host[|host| - 1];
  }

  lemma {:induction false} HostChars(host: string)
    requires forall i, j :: 0 <= i < |Split(host, '.')| && 0 <= j < |Split(host, '.')[i]| ==>
      IsHostChar(Split(host, '.')[i][j])
    ensures forall k :: 0 <= k < |host| ==> IsHostChar(host[k])
  {
    if host != "" {
      var labels, rest := Split(host, '.'), Split(host[1..], '.');
      forall i, j | 0 <= i < |rest| && 0 <= j < |rest[i]| ensures IsHostChar(rest[i][j]) {
        if host[0] == '.' {
          assert labels[i + 1] == rest[i];
        } else if i == 0 {
          assert labels[0][j + 1] == rest[0][j];
        } else {
          assert labels[i] == rest[i];
        }
      }
      HostChars(host[1..]);
      assert host[0] == '.' || labels[0][0] == host[0];
      assert host == [host[0]] + host[1..];
    }
  }

  lemma HostIsStable(host: string)
    requires IsHost(host)
    ensures Trim(host) == host && WithoutWildcard(host) == host && NormaliseHostname(host) == Some(host)
  {
    var labels := Split(host, '.');
    assert IsLabel(labels[0]) && IsLabel(labels[|labels| - 1]);
    FirstLabel(host);
    LastLabel(host);
    forall i, j | 0 <= i < |labels| && 0 <= j < |labels[i]| ensures IsHostChar(labels[i][j]) {
      assert IsLabel(labels[i]);
    }
    HostChars(host);
    CleanText(host);
  }

  lemma NormalisedIsHost(value: string)
    ensures NormaliseHostname(value).Some? ==> IsHost(NormaliseHostname(value).value)
  {
  }

  /**
   * Canonicalising a pattern is idempotent: what is accepted and stored is
   * accepted again, unchanged, when it is parsed at match time.
   */
  lemma CanonicalPatternIsStable(patternType: string, pattern: string)
    requires ParseBlocklistPattern(patternType, pattern).Accepted?
    ensures var stored := ParseBlocklistPattern(patternType, pattern).pattern;
            ParseBlocklistPattern(patternType, stored) == Accepted(stored)
  {
    var value := Trim(pattern);
    if patternType == "HOST_SUFFIX" {
      NormalisedIsHost(WithoutWildcard(value));
      HostIsStable(NormaliseHostname(WithoutWildcard(value)).value);
    } else if patternType == "CIDR" {
      ParsedCidrIsBlock(value);
      CidrTextParses(ParseCidr(value).value);
    } else {
      ParsedRangeIsProper(value);
      RangeTextParses(ParseRange(value).value);
    }
  }

  // ---------------------------------------------------------------- matching

  datatype Entry = Entry(id: string, patternType: string, pattern: string)

  datatype Matcher =
    | HostMatcher(suffix: string)
    | CidrMatcher(cidr: Cidr)
    | RangeMatcher(range: Range)

  /** The matcher for a stored pattern, which is parsed again; only for patterns that parse. */
  function MatcherFor(patternType: string, stored: string): (m: Matcher)
    requires patternType == "CIDR" ==> ParseCidr(stored).Some?
    requires patternType == "IP_RANGE" ==> ParseRange(stored).Some?
    ensures m.CidrMatcher? ==> ParseCidr(stored) == Some(m.cidr)
    ensures m.RangeMatcher? ==> ParseRange(stored) == Some(m.range)
  {
    if patternType == "CIDR" then CidrMatcher(ParseCidr(stored).value)
    else if patternType == "IP_RANGE" then RangeMatcher(ParseRange(stored).value)
    else HostMatcher(stored)
  }

  /** The matcher of an entry, or None when it cannot be evaluated. */
  function Compile(entry: Entry): (m: Option<Matcher>)
    ensures m.Some? && m.value.CidrMatcher? ==> m.value.cidr.IsBlock()
  {
    match ParseBlocklistPattern(entry.patternType, entry.pattern)
    case Rejected(_) => None
    case Accepted(stored) =>
      SecondParseSucceeds(entry.patternType, entry.pattern);
      ParsedCidrIsBlock(stored);
      Some(MatcherFor(entry.patternType, stored))
  }

  /** The second parse never fails, and finds the block or range the first one found. */
  lemma SecondParseSucceeds(patternType: string, pattern: string)
    requires ParseBlocklistPattern(patternType, pattern).Accepted?
    ensures var stored := ParseBlocklistPattern(patternType, pattern).pattern;
            && (patternType == "CIDR" ==> ParseCidr(stored).Some? && ParseCidr(stored) == ParseCidr(Trim(pattern)))
            && (patternType == "IP_RANGE" ==> ParseRange(stored).Some? && ParseRange(stored) == ParseRange(Trim(pattern)))
  {
    var value := Trim(pattern);
    if patternType == "CIDR" {
      ParsedCidrIsBlock(value);
      CidrTextParses(ParseCidr(value).value);
    } else if patternType == "IP_RANGE" {
      ParsedRangeIsProper(value);
      RangeTextParses(ParseRange(value).value);
    }
  }

  predicate Covers(m: Matcher, a: Number) {
    match m
    case HostMatcher(_) => false
    case CidrMatcher(c) =>
      a.family == c.base.family && Masked(a.value, c.HostBits()) == c.base.value
    case RangeMatcher(r) => a.family == r.start.family && r.start.value <= a.value <= r.end.value
  }

  function FirstCovered(m: Matcher, addresses: seq<Number>): (hit: Option<Number>)
    ensures hit.Some? ==> hit.value in addresses && Covers(m, hit.value)
    ensures hit.None? <==> forall a :: a in addresses ==> !Covers(m, a)
  {
    if addresses == [] then None
    else if Covers(m, addresses[0]) then Some(addresses[0])
    else FirstCovered(m, addresses[1..])
  }

  predicate EndsWith(s: string, suffix: string) {
    |suffix| <= |s| && s[|s| - |suffix|..] == suffix
  }

  /** What the matcher matched, as it is reported. */
  function MatchedBy(m: Matcher, hostname: Option<string>, addresses: seq<Number>): Option<string> {
    if m.HostMatcher? then
      match hostname
      case Some(h) => if h == m.suffix || EndsWith(h, "." + m.suffix) then Some(h) else None
      case None => None
    else
      match FirstCovered(m, addresses)
      case Some(a) => Some(FormatAddress(a))
      case None => None
  }

  datatype BlockVerdict =
    | Clear
    | MatchedEntry(entry: Entry, matched: string)
    | MalformedEntry(entry: Entry)

  /** `value.trim()` without a trailing `/32` or `/128`. */
  function StripSingleHostPrefix(value: string): string {
    var s := Trim(value);
    if EndsWith(s, "/32") then s[..|s| - 3] else if EndsWith(s, "/128") then s[..|s| - 4] else s
  }

  /** What f makes of each element, where it makes something. */
  function Gather<T, U>(f: T -> Option<U>, xs: seq<T>): seq<U> {
    if xs == [] then []
    else Gather(f, xs[..|xs| - 1]) + match f(xs[|xs| - 1]) case Some(u) => [u] case None => []
  }

  function NumberFrom(address: string): Option<Number> {
    ToAddressNumber(StripSingleHostPrefix(address))
  }

  function NumbersIn(addresses: seq<string>): seq<Number> {
    Gather(NumberFrom, addresses)
  }

  function MatchBlocklist(hostname: Option<string>, addresses: seq<string>, entries: seq<Entry>): BlockVerdict {
    var host := if hostname.Some? then NormaliseHostname(hostname.value) else None;
    FirstMatch(host, NumbersIn(addresses), entries)
  }

  /** The first entry that matches, or that cannot be evaluated, decides. */
  function FirstMatch(host: Option<string>, numbers: seq<Number>, entries: seq<Entry>): BlockVerdict {
    if entries == [] then Clear
    else
      match Compile(entries[0])
      case None => MalformedEntry(entries[0])
      case Some(m) =>
        match MatchedBy(m, host, numbers)
        case Some(text) => MatchedEntry(entries[0], text)
        case None => FirstMatch(host, numbers, entries[1..])
  }

  /** A block covers exactly the interval from its network address, 2^(host bits) values long. */
  lemma BlockCovers(c: Cidr, a: Number)
    requires c.IsBlock()
    ensures Covers(CidrMatcher(c), a) <==>
            a.family == c.base.family && c.base.value <= a.value <= c.base.value + Pow2(c.HostBits()) - 1
  {
    BlockIsInterval(a.value, c.base.value, c.HostBits());
  }

  /** So does a CIDR entry. */
  lemma CidrCoversInterval(entry: Entry, a: Number)
    requires Compile(entry).Some? && Compile(entry).value.CidrMatcher?
    ensures var c := Compile(entry).value.cidr;
            Covers(Compile(entry).value, a) <==>
            a.family == c.base.family && c.base.value <= a.value <= c.base.value + Pow2(c.HostBits()) - 1
  {
    BlockCovers(Compile(entry).value.cidr, a);
  }

  /** A CIDR entry and an IP_RANGE entry over the same interval match the same subjects, with the same report. */
  lemma CidrAgreesWithRange(cidr: Entry, c: Cidr, range: Entry, r: Range, host: Option<string>, addresses: seq<Number>)
    requires Compile(cidr) == Some(CidrMatcher(c)) && Compile(range) == Some(RangeMatcher(r))
    requires r.start == c.base && r.end.value == c.base.value + Pow2(c.HostBits()) - 1
    ensures MatchedBy(CidrMatcher(c), host, addresses) == MatchedBy(RangeMatcher(r), host, addresses)
  {
    forall a ensures Covers(CidrMatcher(c), a) <==> Covers(RangeMatcher(r), a) {
      BlockCovers(c, a);
    }
    SameCoverSameHit(CidrMatcher(c), RangeMatcher(r), addresses);
  }

  lemma {:induction false} SameCoverSameHit(m: Matcher, n: Matcher, addresses: seq<Number>)
    requires forall a :: Covers(m, a) <==> Covers(n, a)
    ensures FirstCovered(m, addresses) == FirstCovered(n, addresses)
  {
    if addresses != [] {
      SameCoverSameHit(m, n, addresses[1..]);
    }
  }

  // ------------------------------------------------------------- entries as written

  /**
   * A CIDR pattern, as written: it is accepted exactly when its address has a number and
   * its prefix length fits the family, and covers the addresses whose first bits are the same.
   */
  lemma CidrAsWritten(address: string, bits: nat, x: Number)
    requires bits < 1000
    ensures var n, c := ToAddressNumber(address), ParseCidr(address + "/" + Numeral(bits, 10));
            && (c.Some? <==> n.Some? && bits <= if n.value.family == 4 then 32 else 128)
            && (c.Some? ==>
                  var h := (if n.value.family == 4 then 32 else 128) - bits;
                  Covers(CidrMatcher(c.value), x) <==>
                  x.family == n.value.family && Masked(x.value, h) == Masked(n.value.value, h))
  {
    PartsAsWritten(address, bits);
    if ToAddressNumber(address).Some? {
      BlockAroundCovers(ToAddressNumber(address).value, bits, x);
    }
  }

  lemma PartsAsWritten(address: string, bits: nat)
    requires bits < 1000
    ensures CidrParts(address + "/" + Numeral(bits, 10)) == Some((address, bits))
  {
    DecimalLength(bits);
    NumeralRoundTrip(bits, 10);
    PartsAround(address, Numeral(bits, 10));
  }

  lemma PartsAround(address: string, prefix: string)
    requires IsPrefixLength(prefix)
    ensures CidrParts(address + "/" + prefix) == Some((address, NumeralValue(prefix, 10)))
  {
    var text := address + "/" + prefix;
    NumeralText(prefix);
    assert text[|address| + 1..] == prefix && text[..|address|] == address && text[|address|] == '/';
    LastIndexIs(text, '/', |address|);
  }

  lemma BlockAroundCovers(n: Number, bits: nat, x: Number)
    ensures var width, c := if n.family == 4 then 32 else 128, BlockAround(Some(n), bits);
            && (c.Some? <==> bits <= width)
            && (c.Some? ==>
                  (Covers(CidrMatcher(c.value), x) <==>
                   x.family == n.family && Masked(x.value, width - bits) == Masked(n.value, width - bits)))
  {
  }

  /** A range pattern, as written: both ends have numbers of one family, in order, and it covers what lies between. */
  lemma RangeAsWritten(first: string, last: string, x: Number)
    requires '-' !in first && '-' !in last
    ensures var a, b, r := ToAddressNumber(first), ToAddressNumber(last), ParseRange(first + "-" + last);
            && (r.Some? <==> a.Some? && b.Some? && a.value.family == b.value.family && a.value.value <= b.value.value)
            && (r.Some? ==>
                  (Covers(RangeMatcher(r.value), x) <==>
                   x.family == a.value.family && a.value.value <= x.value <= b.value.value))
  {
    EndsOfRange(first, last);
  }

  lemma EndsOfRange(first: string, last: string)
    requires '-' !in first && '-' !in last
    ensures Split(first + "-" + last, '-') == [first, last]
  {
    SplitWhole(first, '-');
    SplitWhole(last, '-');
    SplitAtSeparator(first, '-', last);
    assert first + ['-'] + last == first + "-" + last;
  }

  // ------------------------------------------------------------ whole labels, any case

  /** The labels of the suffix are the last labels of the host. */
  predicate EndsInLabels(host: string, suffix: string) {
    var h, l := Split(host, '.'), Split(suffix, '.');
    |l| <= |h| && h[|h| - |l|..] == l
  }

  /** A host pattern matches the host it names and those under it, by whole labels: `b.c` has `a.b.c`, not `ab.c`. */
  lemma SuffixMatchesWholeLabels(suffix: string, host: string, addresses: seq<Number>)
    ensures MatchedBy(HostMatcher(suffix), None, addresses) == None
    ensures MatchedBy(HostMatcher(suffix), Some(host), addresses) == if EndsInLabels(host, suffix) then Some(host) else None
  {
    if host == suffix {
      assert EndsInLabels(host, suffix);
    } else {
      if EndsWith(host, "." + suffix) { DottedSuffixEnds(host, suffix); }
      if EndsInLabels(host, suffix) { EndingIsDotted(host, suffix); }
    }
  }

  lemma DottedSuffixEnds(host: string, suffix: string)
    requires EndsWith(host, "." + suffix)
    ensures EndsInLabels(host, suffix)
  {
    var before := host[..|host| - |suffix| - 1];
    assert host == before + ['.'] + suffix;
    SplitAtSeparator(before, '.', suffix);
  }

  lemma EndingIsDotted(host: string, suffix: string)
    requires EndsInLabels(host, suffix) && host != suffix
    ensures EndsWith(host, "." + suffix)
  {
    var h, l := Split(host, '.'), Split(suffix, '.');
    JoinSplit(host, '.');
    JoinSplit(suffix, '.');
    assert |h| == |l| ==> h == l;
    var upper := h[..|h| - |l|];
    assert upper + l == h && upper != [];
    JoinAppend(upper, l, ".");
    assert host == Join(upper, ".") + "." + suffix;
  }

  /** A host is the same in any case, and with a final dot. */
  lemma HostInAnyCase(host: string, spelling: string)
    requires IsHost(host) && |spelling| == |host|
    requires forall k :: 0 <= k < |host| ==>
               spelling[k] == host[k] || ('a' <= host[k] <= 'z' && spelling[k] as int + 32 == host[k] as int)
    ensures NormaliseHostname(spelling) == Some(host) == NormaliseHostname(spelling + ".")
  {
    HostCharsOnly(host);
    LowersToHost(host, spelling);
    LowersToHost(host + ".", spelling + ".");
    NoFinalDot(host);
  }

  lemma LowersToHost(host: string, spelling: string)
    requires host != "" && |spelling| == |host| && forall k :: 0 <= k < |host| ==> IsHostChar(host[k])
    requires forall k :: 0 <= k < |host| ==>
               spelling[k] == host[k] || ('a' <= host[k] <= 'z' && spelling[k] as int + 32 == host[k] as int)
    ensures Lower(Trim(spelling)) == host
  {
    forall k | 0 <= k < |host| ensures LowerChar(spelling[k]) == host[k] && !IsSpace(spelling[k]) {
      assert IsHostChar(host[k]);
    }
    TrimmedStays(spelling);
    assert Lower(spelling) == host;
  }

  lemma HostCharsOnly(host: string)
    requires IsHost(host)
    ensures forall k :: 0 <= k < |host| ==> IsHostChar(host[k])
  {
    var labels := Split(host, '.');
    forall i, j | 0 <= i < |labels| && 0 <= j < |labels[i]| ensures IsHostChar(labels[i][j]) {
      assert IsLabel(labels[i]);
    }
    HostChars(host);
  }

  lemma NoFinalDot(host: string)
    requires IsHost(host)
    ensures host[|host| - 1] != '.'
  {
    var labels := Split(host, '.');
    assert IsLabel(labels[|labels| - 1]);
    LastLabel(host);
  }

  /** The entry reported is the first that matches or cannot be evaluated. */
  lemma FirstMisses(host: Option<string>, numbers: seq<Number>, entries: seq<Entry>)
    requires entries != []
    requires Compile(entries[0]).Some? && MatchedBy(Compile(entries[0]).value, host, numbers).None?
    ensures FirstMatch(host, numbers, entries) == FirstMatch(host, numbers, entries[1..])
  {
  }

  lemma {:induction false} FirstHitDecides(host: Option<string>, numbers: seq<Number>, entries: seq<Entry>, i: nat)
    requires i < |entries|
    requires forall j {:trigger entries[j]} :: 0 <= j < i ==>
               Compile(entries[j]).Some? && MatchedBy(Compile(entries[j]).value, host, numbers).None?
    ensures FirstMatch(host, numbers, entries) == FirstMatch(host, numbers, entries[i..])
  {
    if i == 0 {
      assert entries[0..] == entries;
    } else {
      FirstMisses(host, numbers, entries);
      forall j | 0 <= j < i - 1
        ensures Compile(entries[1..][j]).Some? && MatchedBy(Compile(entries[1..][j]).value, host, numbers).None?
      {
        assert entries[1..][j] == entries[j + 1];
      }
      FirstHitDecides(host, numbers, entries[1..], i - 1);
      assert entries[1..][i - 1..] == entries[i..];
    }
  }

  /** The entry reported is the first that matches or cannot be evaluated. */
  lemma FirstHitIsReported(host: Option<string>, numbers: seq<Number>, entries: seq<Entry>, i: nat)
    requires i < |entries|
    requires forall j {:trigger entries[j]} :: 0 <= j < i ==>
               Compile(entries[j]).Some? && MatchedBy(Compile(entries[j]).value, host, numbers).None?
    ensures Compile(entries[i]).None? ==> FirstMatch(host, numbers, entries) == MalformedEntry(entries[i])
    ensures Compile(entries[i]).Some? && MatchedBy(Compile(entries[i]).value, host, numbers).Some? ==>
              FirstMatch(host, numbers, entries)
              == MatchedEntry(entries[i], MatchedBy(Compile(entries[i]).value, host, numbers).value)
  {
    FirstHitDecides(host, numbers, entries, i);
    assert entries[i..][0] == entries[i];
  }
}
