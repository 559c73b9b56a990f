/**
 * Eight 16-bit groups and their text: two printers that search for the zero run
 * in different ways, and the parser.
 */
module Ipv6Text {
  import opened Options
  import opened Text

  type Groups = seq<nat>

  predicate IsGroups(g: Groups) {
    |g| == 8 && forall i :: 0 <= i < 8 ==> g[i] < 0x1_0000
  }

  // ----------------------------------------------------------- the zero run

  predicate ZeroRun(g: Groups, start: int, length: int) {
    0 <= start && 0 <= length && start + length <= |g| && forall k :: start <= k < start + length ==> g[k] == 0
  }

  /**
   * The run section 4.2 of RFC 5952 compresses: the longest run of zero groups,
   * the leftmost of the longest ones. Without a zero group, the empty run at -1.
   */
  ghost predicate LeftmostLongest(g: Groups, start: int, length: nat) {
    && (length == 0 ==> start == -1)
    && (length > 0 ==> ZeroRun(g, start, length))
    && forall s, n :: n > 0 && ZeroRun(g, s, n) ==> n < length || (n == length && start <= s)
  }

  lemma LeftmostLongestIsUnique(g: Groups, a: int, m: nat, b: int, n: nat)
    requires LeftmostLongest(g, a, m) && LeftmostLongest(g, b, n)
    ensures a == b && m == n
  {
    if m > 0 { assert ZeroRun(g, a, m); }
    if n > 0 { assert ZeroRun(g, b, n); }
  }

  /** How many groups from i on are zero. */
  function Zeros(g: Groups, i: nat): (n: nat)
    requires i <= |g|
    ensures ZeroRun(g, i, n) && (i + n < |g| ==> g[i + n] != 0)
    decreases |g| - i
  {
    if i < |g| && g[i] == 0 then 1 + Zeros(g, i + 1) else 0
  }

  /** The best run among those starting before n. */
  function BestBefore(g: Groups, n: nat): (run: (int, nat))
    requires n <= |g|
    ensures run.0 < n && (run.1 == 0 ==> run.0 == -1)
    ensures run.1 > 0 ==> ZeroRun(g, run.0, run.1)
    ensures forall s :: 0 <= s < n ==> Zeros(g, s) <= run.1 && (Zeros(g, s) == run.1 > 0 ==> run.0 <= s)
  {
    if n == 0 then (-1, 0)
    else
      var best := BestBefore(g, n - 1);
      if Zeros(g, n - 1) > best.1 then (n - 1, Zeros(g, n - 1)) else best
  }

  function Best(g: Groups): (run: (int, nat))
    ensures LeftmostLongest(g, run.0, run.1)
  {
    var run := BestBefore(g, |g|);
    assert LeftmostLongest(g, run.0, run.1) by {
      forall s, n | n > 0 && ZeroRun(g, s, n) ensures n < run.1 || (n == run.1 && run.0 <= s) {
        assert n <= Zeros(g, s);
      }
    }
    run
  }

  // ------------------------------------------------------------ the printers

  function Hexes(g: Groups): (r: seq<string>)
    ensures |r| == |g| && forall i :: 0 <= i < |g| ==> r[i] == Numeral(g[i], 16)
  {
    seq(|g|, i requires 0 <= i < |g| => Numeral(g[i], 16))
  }

  function Compressed(g: Groups, start: int, length: nat): string
    requires length >= 2 ==> 0 <= start && start + length <= |g|
  {
    if length < 2 then Join(Hexes(g), ":")
    else Join(Hexes(g)[..start], ":") + "::" + Join(Hexes(g)[start + length..], ":")
  }

  /** The canonical text: the leftmost longest run of two or more zero groups becomes `::`. */
  function TextOf(g: Groups): string {
    var (start, length) := Best(g);
    Compressed(g, start, length)
  }

  /** The zeros just before i, counted back to a group that is not zero. */
  ghost predicate RunOpen(g: Groups, i: int, runLength: int) {
    && 0 <= runLength <= i <= |g| && ZeroRun(g, i - runLength, runLength)
    && (runLength < i ==> g[i - runLength - 1] != 0)
  }

  /** The best of the runs that end by `limit`. */
  ghost predicate BestUpTo(g: Groups, limit: int, start: int, length: int) {
    && 0 <= length && (length == 0 ==> start == -1)
    && (length > 0 ==> ZeroRun(g, start, length) && start + length <= limit)
    && forall s, n :: n > 0 && ZeroRun(g, s, n) && s + n <= limit ==> n < length || (n == length && start <= s)
  }

  /** The open run joins the comparison; only a longer one displaces the best so far. */
  lemma CloseRun(g: Groups, i: int, runLength: int, start: int, length: int)
    requires RunOpen(g, i, runLength) && BestUpTo(g, i - runLength, start, length)
    ensures if runLength > length then BestUpTo(g, i, i - runLength, runLength) else BestUpTo(g, i, start, length)
  {
    forall s, n | n > 0 && ZeroRun(g, s, n) && s + n <= i
      ensures s + n <= i - runLength || s >= i - runLength
    {
      assert runLength == i || g[i - runLength - 1] != 0;
    }
  }

  /** No run ends right behind a group that is not zero. */
  lemma PassNonZero(g: Groups, i: int, start: int, length: int)
    requires 0 <= i < |g| && g[i] != 0 && BestUpTo(g, i, start, length)
    ensures BestUpTo(g, i + 1, start, length)
  {
  }

  lemma BestOfAll(g: Groups, start: int, length: int)
    requires BestUpTo(g, |g|, start, length)
    ensures LeftmostLongest(g, start, length) && Best(g) == (start, length)
  {
    LeftmostLongestIsUnique(g, start, length, Best(g).0, Best(g).1);
  }

  /** The first printer: one pass, closing a run when it meets anything but a zero, or the end. */
  method GroupsToText(groups: Groups) returns (text: string)
    ensures text == TextOf(groups)
  {
    var bestStart, bestLength, runStart, runLength := -1, 0, -1, 0;
    for i := 0 to |groups| + 1
      invariant i <= |groups| ==> RunOpen(groups, i, runLength)
      invariant i <= |groups| ==> runStart == if runLength == 0 then -1 else i - runLength
      invariant i <= |groups| ==> BestUpTo(groups, i - runLength, bestStart, bestLength)
      invariant i > |groups| ==> BestUpTo(groups, |groups|, bestStart, bestLength)
    {
      if i < |groups| && groups[i] == 0 {
        if runStart == -1 { runStart := i; }
        runLength := runLength + 1;
      } else {
        CloseRun(groups, i, runLength, bestStart, bestLength);
        if runLength > bestLength {
          bestStart, bestLength := runStart, runLength;
        }
        if i < |groups| { PassNonZero(groups, i, bestStart, bestLength); }
        runStart, runLength := -1, 0;
      }
    }
    BestOfAll(groups, bestStart, bestLength);
    var hex := Hexes(groups);
    if bestLength < 2 { return Join(hex, ":"); }
    var head := Join(hex[..bestStart], ":");
    var tail := Join(hex[bestStart + bestLength..], ":");
    return head + "::" + tail;
  }

  /** The second printer: it measures each run as it meets its first group. */
  method CanonicalIpv6(groups: Groups) returns (text: string)
    ensures text == TextOf(groups)
  {
    var bestStart, bestLength := -1, 0;
    var i := 0;
    while i < |groups|
      invariant 0 <= i <= |groups|
      invariant 0 < i < |groups| ==> groups[i - 1] != 0 || groups[i] != 0
      invariant BestUpTo(groups, i, bestStart, bestLength)
    {
      if groups[i] != 0 {
        PassNonZero(groups, i, bestStart, bestLength);
        i := i + 1;
        continue;
      }
      var j := i;
      while j < |groups| && groups[j] == 0
        invariant i <= j <= |groups| && ZeroRun(groups, i, j - i)
      {
        j := j + 1;
      }
      CloseRun(groups, j, j - i, bestStart, bestLength);
      if j - i > bestLength {
        bestStart, bestLength := i, j - i;
      }
      i := j;
    }
    BestOfAll(groups, bestStart, bestLength);
    var hex := Hexes(groups);
    if bestLength < 2 { return Join(hex, ":"); }
    return Join(hex[..bestStart], ":") + "::" + Join(hex[bestStart + bestLength..], ":");
  }

  // -------------------------------------------------------------- the readers

  /** `s.split("::")`. */
  function SplitDouble(s: string): (r: seq<string>)
    ensures |r| >= 1
  {
    var i := DoubleColon(s);
    if i == |s| then [s] else [s[..i]] + SplitDouble(s[i + 2..])
  }

  /** Where the first `::` stands; the length when there is none. */
  function DoubleColon(s: string): (i: nat)
    ensures i <= |s| && (i < |s| ==> i + 1 < |s| && s[i] == ':' && s[i + 1] == ':')
    ensures forall k :: 0 <= k < i && k + 1 < |s| ==> !(s[k] == ':' && s[k + 1] == ':')
  {
    if |s| < 2 then |s|
    else if s[0] == ':' && s[1] == ':' then 0
    else
      var rest := DoubleColon(s[1..]);
      assert forall k :: 0 < k < 1 + rest && k + 1 < |s| ==> s[k] == s[1..][k - 1] && s[k + 1] == s[1..][k];
      1 + rest
  }

  predicate IsChunk(c: string) {
    1 <= |c| <= 4 && IsNumeral(c, 16)
  }

  /** The groups of one half; None when a chunk is not one to four hex digits. */
  function ToGroups(part: string): Option<Groups> {
    if part == "" then Some([]) else ChunksToGroups(Split(part, ':'))
  }

  function ChunksToGroups(chunks: seq<string>): (r: Option<Groups>)
    ensures r.Some? <==> forall i :: 0 <= i < |chunks| ==> IsChunk(chunks[i])
    ensures r.Some? ==> |r.value| == |chunks|
    ensures r.Some? ==> forall i :: 0 <= i < |chunks| ==> r.value[i] == NumeralValue(chunks[i], 16)
  {
    if forall i :: 0 <= i < |chunks| ==> IsChunk(chunks[i]) then
      Some(seq(|chunks|, i requires 0 <= i < |chunks| => NumeralValue(chunks[i], 16)))
    else None
  }

  function Fill(n: nat): (z: Groups)
    ensures |z| == n && forall i :: 0 <= i < n ==> z[i] == 0
  {
    seq(n, i => 0)
  }

  /** Reads the text of eight groups, one `::` standing for the ones left out. */
  function ReadGroups(text: string): Option<Groups> {
    var halves := SplitDouble(text);
    if |halves| > 2 then None
    else
      match ToGroups(halves[0])
      case None => None
      case Some(head) =>
        if |halves| == 1 then (if |head| == 8 then Some(head) else None)
        else
          match ToGroups(halves[1])
          case None => None
          case Some(back) =>
            if |head| + |back| > 8 then None else Some(head + Fill(8 - |head| - |back|) + back)
  }

  // ------------------------------------------------------------- round trips

  /** What the texts of groups consist of. */
  predicate IsHexOrColon(c: char) {
    IsDigit(c, 16) || c == ':'
  }

  predicate Plain(s: string) {
    forall k :: 0 <= k < |s| ==> IsHexOrColon(s[k])
  }

  /** Joined pieces never put two colons side by side, nor one at either end. */
  predicate Tight(s: string) {
    && (s != "" ==> s[0] != ':' && s[|s| - 1] != ':')
    && forall k :: 0 <= k && k + 1 < |s| ==> !(s[k] == ':' && s[k + 1] == ':')
  }

  lemma {:induction false} JoinedHexes(parts: seq<string>)
    requires forall i :: 0 <= i < |parts| ==> parts[i] != "" && IsNumeral(parts[i], 16)
    ensures Plain(Join(parts, ":")) && Tight(Join(parts, ":"))
    ensures Join(parts, ":") == "" <==> parts == []
    ensures |parts| >= 2 ==> ':' in Join(parts, ":")
  {
    if |parts| > 1 {
      var rest := Join(parts[1..], ":");
      JoinedHexes(parts[1..]);
      var s := Join(parts, ":");
      assert s == parts[0] + ":" + rest;
      assert s[|parts[0]|] == ':';
      forall k | 0 <= k < |s| ensures IsHexOrColon(s[k]) {
        if k > |parts[0]| { assert s[k] == rest[k - |parts[0]| - 1]; }
      }
      forall k | 0 <= k && k + 1 < |s| ensures !(s[k] == ':' && s[k + 1] == ':') {
        if k > |parts[0]| {
          assert s[k] == rest[k - |parts[0]| - 1] && s[k + 1] == rest[k - |parts[0]|];
        }
      }
    }
  }

  lemma SplitDoubleNone(s: string)
    requires forall k :: 0 <= k && k + 1 < |s| ==> !(s[k] == ':' && s[k + 1] == ':')
    ensures SplitDouble(s) == [s]
  {
  }

  lemma SplitDoubleOnce(a: string, b: string)
    requires Tight(a) && Tight(b)
    ensures SplitDouble(a + "::" + b) == [a, b]
  {
    var s := a + "::" + b;
    var i := DoubleColon(s);
    assert s[|a|] == ':' && s[|a| + 1] == ':';
    forall k | 0 <= k < |a| ensures !(s[k] == ':' && s[k + 1] == ':') {
      assert s[k] == a[k];
      if k + 1 < |a| { assert s[k + 1] == a[k + 1]; }
    }
    assert i == |a|;
    assert s[..i] == a && s[i + 2..] == b;
    SplitDoubleNone(b);
  }

  lemma ReadJoinedHexes(g: Groups)
    requires forall i :: 0 <= i < |g| ==> g[i] < 0x1_0000
    ensures ToGroups(Join(Hexes(g), ":")) == Some(g)
  {
    var hex := Hexes(g);
    JoinedHexes(hex);
    if g != [] {
      forall i | 0 <= i < |hex| ensures ':' !in hex[i] && IsChunk(hex[i]) && NumeralValue(hex[i], 16) == g[i] {
        HexLength(g[i]);
        NumeralRoundTrip(g[i], 16);
      }
      SplitJoin(hex, ':');
      assert ChunksToGroups(hex).value == g;
    }
  }

  lemma ReadHalves(text: string, s: string, t: string, a: Groups, b: Groups)
    requires SplitDouble(text) == [s, t] && ToGroups(s) == Some(a) && ToGroups(t) == Some(b) && |a| + |b| <= 8
    ensures ReadGroups(text) == Some(a + Fill(8 - |a| - |b|) + b)
  {
  }

  lemma PlainHalves(s: string, t: string)
    requires Plain(s) && Plain(t)
    ensures Plain(s + "::" + t) && ':' in s + "::" + t
  {
    assert (s + "::" + t)[|s|] == ':';
  }

  lemma AroundRun(g: Groups, start: nat, length: nat)
    requires IsGroups(g) && ZeroRun(g, start, length)
    ensures Hexes(g[..start]) == Hexes(g)[..start] && Hexes(g[start + length..]) == Hexes(g)[start + length..]
    ensures g[..start] + Fill(length) + g[start + length..] == g
  {
  }

  lemma ReadCompressed(g: Groups, start: nat, length: nat)
    requires IsGroups(g) && ZeroRun(g, start, length) && length >= 2
    ensures var text := Compressed(g, start, length);
            ReadGroups(text) == Some(g) && Plain(text) && ':' in text
  {
    AroundRun(g, start, length);
    var a, b := g[..start], g[start + length..];
    var s, t := Join(Hexes(a), ":"), Join(Hexes(b), ":");
    JoinedHexes(Hexes(a));
    JoinedHexes(Hexes(b));
    PlainHalves(s, t);
    SplitDoubleOnce(s, t);
    ReadJoinedHexes(a);
    ReadJoinedHexes(b);
    ReadHalves(s + "::" + t, s, t, a, b);
  }

  lemma ReadUncompressed(g: Groups)
    requires IsGroups(g)
    ensures var text := Join(Hexes(g), ":");
            ReadGroups(text) == Some(g) && Plain(text) && ':' in text
  {
    JoinedHexes(Hexes(g));
    SplitDoubleNone(Join(Hexes(g), ":"));
    ReadJoinedHexes(g);
  }

  /**
   * Printing then reading gives the groups back, and the text holds nothing but
   * hex digits and at least one colon.
   */
  lemma PrintThenRead(g: Groups)
    requires IsGroups(g)
    ensures ReadGroups(TextOf(g)) == Some(g)
    ensures Plain(TextOf(g)) && ':' in TextOf(g)
  {
    var (start, length) := Best(g);
    if length < 2 {
      ReadUncompressed(g);
    } else {
      ReadCompressed(g, start, length);
    }
  }

  /** The text names the groups: no two have the same. */
  lemma TextIsInjective(g: Groups, h: Groups)
    requires IsGroups(g) && IsGroups(h) && TextOf(g) == TextOf(h)
    ensures g == h
  {
    PrintThenRead(g);
    PrintThenRead(h);
  }
}
