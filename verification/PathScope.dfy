/** Which paths of a target are in scope: canonical paths, included and excluded prefixes. */
module PathScope {
  import opened Text

  // ------------------------------------------------------------- canonical paths

  predicate IsSegment(s: string) {
    s != "" && s != "." && s != ".." && '/' !in s
  }

  predicate AreSegments(segments: seq<string>) {
    forall i :: 0 <= i < |segments| ==> IsSegment(segments[i])
  }

  /** The text of a canonical path. */
  function PathText(segments: seq<string>): string {
    "/" + Join(segments, "/")
  }

  /** The stack of segments behind the first pieces of a path: empty and `.` skipped, `..` popped. */
  function Stack(pieces: seq<string>): (segments: seq<string>)
    requires forall i :: 0 <= i < |pieces| ==> '/' !in pieces[i]
    ensures AreSegments(segments)
  {
    if pieces == [] then []
    else
      var before, piece := Stack(pieces[..|pieces| - 1]), pieces[|pieces| - 1];
      if piece == "" || piece == "." then before
      else if piece == ".." then (if before == [] then [] else before[..|before| - 1])
      else before + [piece]
  }

  /** The segments a path resolves to. */
  function Segments(path: string): (segments: seq<string>)
    ensures AreSegments(segments)
  {
    Stack(Split(path, '/'))
  }

  method ResolveSegments(path: string) returns (r: string)
    ensures r == PathText(Segments(path))
  {
    var pieces, segments := Split(path, '/'), [];
    for i := 0 to |pieces|
      invariant segments == Stack(pieces[..i])
    {
      assert pieces[..i + 1][..i] == pieces[..i];
      if pieces[i] == "" || pieces[i] == "." { continue; }
      if pieces[i] == ".." {
        if segments != [] { segments := segments[..|segments| - 1]; }
      } else {
        segments := segments + [pieces[i]];
      }
    }
    assert pieces[..|pieces|] == pieces;
    r := "/" + Join(segments, "/");
  }

  lemma {:induction false} StackOfSegments(segments: seq<string>)
    requires AreSegments(segments)
    ensures Stack(segments) == segments
  {
    if segments != [] {
      StackOfSegments(segments[..|segments| - 1]);
    }
  }

  lemma StackSame(a: seq<string>, b: seq<string>, piece: string)
    requires forall i :: 0 <= i < |a| ==> '/' !in a[i]
    requires forall i :: 0 <= i < |b| ==> '/' !in b[i]
    requires Stack(a) == Stack(b) && '/' !in piece
    ensures Stack(a + [piece]) == Stack(b + [piece])
  {
    assert (a + [piece])[..|a|] == a && (b + [piece])[..|b|] == b;
  }

  lemma {:induction false} StackSkips(pieces: seq<string>)
    requires forall i :: 0 <= i < |pieces| ==> '/' !in pieces[i]
    ensures Stack([""] + pieces) == Stack(pieces)
  {
    if pieces == [] {
      assert [""] + pieces == [""] && [""][..0] == [];
    } else {
      var n := |pieces| - 1;
      StackSkips(pieces[..n]);
      StackSame([""] + pieces[..n], pieces[..n], pieces[n]);
      assert pieces[..n] + [pieces[n]] == pieces;
      assert [""] + pieces[..n] + [pieces[n]] == [""] + pieces;
    }
  }

  predicate Pieces(pieces: seq<string>) {
    forall i :: 0 <= i < |pieces| ==> '/' !in pieces[i]
  }

  /** What comes behind does not see how the same segments were arrived at. */
  lemma {:induction false} StackBehind(a: seq<string>, b: seq<string>, more: seq<string>)
    requires Pieces(a) && Pieces(b) && Pieces(more) && Stack(a) == Stack(b)
    ensures Stack(a + more) == Stack(b + more)
    decreases |more|
  {
    if more == [] {
      assert a + more == a && b + more == b;
    } else {
      StackSame(a, b, more[0]);
      StackBehind(a + [more[0]], b + [more[0]], more[1..]);
      FirstOf(a, more);
      FirstOf(b, more);
    }
  }

  lemma FirstOf(a: seq<string>, more: seq<string>)
    requires more != []
    ensures a + [more[0]] + more[1..] == a + more
  {
  }

  /**
   * The laws of dot segments, as in section 5.2.4 of RFC 3986: `..` takes away the
   * segment before it, and nothing at the root; `.` and empty pieces stand for nothing.
   * With them every path comes down to its segments.
   */
  lemma DotSegments(a: seq<string>, x: string, b: seq<string>)
    requires Pieces(a) && Pieces(b) && IsSegment(x)
    ensures Stack(a + [x, ".."] + b) == Stack(a + b)
    ensures Stack(a + ["."] + b) == Stack(a + b) == Stack(a + [""] + b)
    ensures Stack([".."] + b) == Stack(b)
    ensures Stack(a + [x]) == Stack(a) + [x]
  {
    assert (a + [x])[..|a|] == a;
    assert (a + [x, ".."])[..|a| + 1] == a + [x];
    assert (a + ["."])[..|a|] == a && (a + [""])[..|a|] == a;
    StackBehind(a + [x, ".."], a, b);
    StackBehind(a + ["."], a, b);
    StackBehind(a + [""], a, b);
    assert [".."][..0] == [];
    StackBehind([".."], [], b);
    assert [] + b == b;
  }

  lemma SplitPath(segments: seq<string>)
    requires AreSegments(segments)
    ensures Split(PathText(segments), '/') == [""] + if segments == [] then [""] else segments
  {
    if segments == [] {
      assert PathText(segments) == "/";
    } else {
      SplitJoin(segments, '/');
      assert PathText(segments)[1..] == Join(segments, "/");
    }
  }

  /** Resolving a canonical path changes nothing, so resolving is idempotent. */
  lemma ResolvingIsIdempotent(path: string)
    ensures Segments(PathText(Segments(path))) == Segments(path)
  {
    CanonicalResolves(Segments(path));
  }

  lemma CanonicalResolves(segments: seq<string>)
    requires AreSegments(segments)
    ensures Segments(PathText(segments)) == segments
  {
    SplitPath(segments);
    if segments == [] {
      StackSkips([""]);
      StackSkips([]);
      assert [""] + [] == [""];
    } else {
      StackSkips(segments);
      StackOfSegments(segments);
    }
  }

  // --------------------------------------------------------------- prefix matches

  predicate StartsWith(s: string, prefix: string) {
    prefix <= s
  }

  /** The test `included` makes of one canonical prefix. */
  predicate IncludedBy(path: string, prefix: string) {
    prefix == "/" || path == prefix || StartsWith(path, prefix + "/")
  }

  lemma PathAppend(a: seq<string>, b: seq<string>)
    requires a != [] && b != []
    ensures PathText(a + b) == PathText(a) + "/" + Join(b, "/")
  {
    JoinAppend(a, b, "/");
  }

  /** Text that continues a canonical path behind a slash has its segments first. */
  lemma ContinuedPath(p: seq<string>, q: seq<string>, rest: string)
    requires AreSegments(p) && AreSegments(q) && q != []
    requires PathText(p) == PathText(q) + "/" + rest
    ensures q <= p
  {
    SplitPath(p);
    SplitPath(q);
    SplitAtSeparator(PathText(q), '/', rest);
    assert PathText(q) + ['/'] + rest == PathText(p);
    var pieces := [""] + if p == [] then [""] else p;
    assert pieces == [""] + q + Split(rest, '/');
    assert |p| >= |q|;
    forall i | 0 <= i < |q| ensures p[i] == q[i] {
      assert pieces[i + 1] == p[i];
    }
  }

  /** Inclusion is by whole segments: `/app` admits `/app/x`, not `/apple`. */
  lemma IncludedIsSegmentPrefix(p: seq<string>, q: seq<string>)
    requires AreSegments(p) && AreSegments(q)
    ensures IncludedBy(PathText(p), PathText(q)) <==> q <= p
  {
    if q == [] {
      assert PathText(q) == "/";
    } else if q <= p {
      if p != q {
        PathAppend(q, p[|q|..]);
        assert q + p[|q|..] == p;
      }
    } else {
      assert PathText(q)[1..] == Join(q, "/");
      NotRoot(q);
      if PathText(p) == PathText(q) {
        CanonicalResolves(p);
        CanonicalResolves(q);
      } else if StartsWith(PathText(p), PathText(q) + "/") {
        ContinuedPath(p, q, PathText(p)[|PathText(q)| + 1..]);
      }
    }
  }

  lemma NotRoot(q: seq<string>)
    requires AreSegments(q) && q != []
    ensures PathText(q) != "/"
  {
    CanonicalResolves(q);
    CanonicalResolves([]);
    assert PathText([]) == "/";
  }

  /** The first segments agree, and the prefix's last segment is a text prefix of the path's. */
  predicate OverMatches(q: seq<string>, p: seq<string>) {
    q == [] || (|q| <= |p| && q[..|q| - 1] == p[..|q| - 1] && StartsWith(p[|q| - 1], q[|q| - 1]))
  }

  lemma {:induction false} SplitPrefix(a: string, b: string)
    requires '/' !in a
    ensures Split(a + b, '/') == [a + Split(b, '/')[0]] + Split(b, '/')[1..]
  {
    if a == "" {
      assert a + b == b;
      assert a + Split(b, '/')[0] == Split(b, '/')[0];
    } else {
      assert (a + b)[1..] == a[1..] + b;
      SplitPrefix(a[1..], b);
      assert [a[0]] + (a[1..] + Split(b, '/')[0]) == a + Split(b, '/')[0];
    }
  }

  /** A path up to its last segment. */
  function UpTo(q: seq<string>): string
    requires q != []
  {
    if |q| == 1 then "" else PathText(q[..|q| - 1])
  }

  lemma LastSegment(q: seq<string>)
    requires q != []
    ensures PathText(q) == UpTo(q) + "/" + q[|q| - 1]
  {
    var n := |q| - 1;
    assert q == q[..n] + [q[n]];
    if n > 0 {
      PathAppend(q[..n], [q[n]]);
    }
  }

  lemma SplitUpTo(q: seq<string>, tail: string)
    requires AreSegments(q) && q != []
    ensures Split(UpTo(q) + "/" + tail, '/') == [""] + q[..|q| - 1] + Split(tail, '/')
  {
    SplitAtSeparator(UpTo(q), '/', tail);
    assert UpTo(q) + "/" + tail == UpTo(q) + ['/'] + tail;
    if |q| > 1 {
      SplitPath(q[..|q| - 1]);
    } else {
      assert [""] + q[..0] == [""];
    }
  }

  lemma TextContinues(q: seq<string>, rest: string)
    requires q != []
    ensures PathText(q) + rest == UpTo(q) + "/" + (q[|q| - 1] + rest)
  {
    LastSegment(q);
  }

  lemma ContinuedText(q: seq<string>, rest: string)
    requires AreSegments(q) && q != []
    ensures var n, more := |q| - 1, Split(rest, '/');
            Split(PathText(q) + rest, '/') == [""] + q[..n] + ([q[n] + more[0]] + more[1..])
  {
    TextContinues(q, rest);
    SplitUpTo(q, q[|q| - 1] + rest);
    SplitPrefix(q[|q| - 1], rest);
  }

  /** A text prefix of a canonical path matches its segments, the last one in part. */
  lemma TextPrefixOverMatches(p: seq<string>, q: seq<string>)
    requires AreSegments(p) && AreSegments(q) && q != [] && StartsWith(PathText(p), PathText(q))
    ensures OverMatches(q, p)
  {
    var rest := PathText(p)[|PathText(q)|..];
    var more := Split(rest, '/');
    assert PathText(q) + rest == PathText(p);
    ContinuedText(q, rest);
    SplitPath(p);
    SamePieces(p, q, Split(PathText(p), '/'), q[|q| - 1] + more[0], more[1..]);
  }

  lemma SamePieces(p: seq<string>, q: seq<string>, pieces: seq<string>, joined: string, more: seq<string>)
    requires q != [] && IsSegment(q[|q| - 1]) && StartsWith(joined, q[|q| - 1])
    requires pieces == [""] + if p == [] then [""] else p
    requires pieces == [""] + q[..|q| - 1] + ([joined] + more)
    ensures OverMatches(q, p)
  {
    var n := |q| - 1;
    assert pieces[n + 1] == joined;
    assert p != [];
    assert |p| > n && p[n] == joined;
    forall i | 0 <= i < n ensures p[i] == q[i] {
      assert pieces[i + 1] == p[i];
    }
  }

  lemma JoinHead(b: seq<string>)
    requires b != []
    ensures StartsWith(Join(b, "/"), b[0])
  {
  }

  /** The text of a path from some segment on starts with that segment. */
  lemma TextFrom(p: seq<string>, n: nat)
    requires n < |p|
    ensures StartsWith(PathText(p), (if n == 0 then "" else PathText(p[..n])) + "/" + p[n])
  {
    var rest := p[n..];
    JoinHead(rest);
    if n == 0 {
      assert rest == p;
    } else {
      PathAppend(p[..n], rest);
      assert p[..n] + rest == p;
    }
  }

  lemma OverMatchIsTextPrefix(p: seq<string>, q: seq<string>)
    requires q != [] && OverMatches(q, p)
    ensures StartsWith(PathText(p), PathText(q))
  {
    LastSegment(q);
    TextFrom(p, |q| - 1);
    assert StartsWith(UpTo(q) + "/" + p[|q| - 1], UpTo(q) + "/" + q[|q| - 1]);
  }

  lemma TextPrefixIsOverMatch(p: seq<string>, q: seq<string>)
    requires AreSegments(p) && AreSegments(q)
    ensures StartsWith(PathText(p), PathText(q)) <==> OverMatches(q, p)
  {
    if q != [] {
      if StartsWith(PathText(p), PathText(q)) {
        TextPrefixOverMatches(p, q);
      }
      if OverMatches(q, p) {
        OverMatchIsTextPrefix(p, q);
      }
    }
  }

  // ------------------------------------------------------------------ ignoring case

  function FoldAll(lower: string -> string, segments: seq<string>): (r: seq<string>)
    ensures |r| == |segments| && forall i :: 0 <= i < |r| ==> r[i] == lower(segments[i])
  {
    seq(|segments|, i requires 0 <= i < |segments| => lower(segments[i]))
  }

  /** A case folding works on each side of a slash alone, and makes segments of segments. */
  ghost predicate FoldsSegments(lower: string -> string) {
    && lower("") == ""
    && (forall a, b :: lower(a + "/" + b) == lower(a) + "/" + lower(b))
    && forall s :: IsSegment(s) ==> IsSegment(lower(s))
  }

  lemma {:induction false} FoldJoin(lower: string -> string, segments: seq<string>)
    requires FoldsSegments(lower)
    ensures lower(Join(segments, "/")) == Join(FoldAll(lower, segments), "/")
  {
    if |segments| > 1 {
      FoldJoin(lower, segments[1..]);
      assert FoldAll(lower, segments)[1..] == FoldAll(lower, segments[1..]);
    }
  }

  lemma FoldPath(lower: string -> string, segments: seq<string>)
    requires FoldsSegments(lower) && AreSegments(segments)
    ensures lower(PathText(segments)) == PathText(FoldAll(lower, segments)) && AreSegments(FoldAll(lower, segments))
  {
    FoldJoin(lower, segments);
    assert PathText(segments) == "" + "/" + Join(segments, "/");
    assert lower("" + "/" + Join(segments, "/")) == lower("") + "/" + lower(Join(segments, "/"));
  }

  /** Lower-casing letter by letter is such a folding. */
  lemma LetterwiseFolds()
    ensures FoldsSegments(Lower)
  {
    forall a, b ensures Lower(a + "/" + b) == Lower(a) + "/" + Lower(b) {
    }
    forall s | IsSegment(s) ensures IsSegment(Lower(s)) {
      LowerSegment(s);
    }
  }

  lemma LowerSegment(s: string)
    requires IsSegment(s)
    ensures IsSegment(Lower(s))
  {
    var l := Lower(s);
    forall k | 0 <= k < |s| && (l[k] == '.' || l[k] == '/') ensures s[k] == l[k] {
      assert l[k] == LowerChar(s[k]);
    }
    assert l == "." ==> s == l;
    assert l == ".." ==> s == l;
  }

  // -------------------------------------------------------------------- the decision

  const DECODE_ROUNDS := 3

  /** Percent-decoding up to some rounds, stopping when a round changes nothing. */
  function Decoded(decode: string -> string, path: string, rounds: nat): string
    decreases rounds
  {
    if rounds == 0 || decode(path) == path then path else Decoded(decode, decode(path), rounds - 1)
  }

  /** Stopping early loses nothing: what is left is always what three rounds leave. */
  lemma ThreeRounds(decode: string -> string, path: string)
    ensures Decoded(decode, path, DECODE_ROUNDS) == decode(decode(decode(path)))
  {
    var one := decode(path);
    var two := decode(one);
    assert Decoded(decode, two, 1) == decode(two) by {
      assert Decoded(decode, decode(two), 0) == decode(two);
    }
    assert Decoded(decode, one, 2) == decode(two);
  }

  function Slashed(s: string): (r: string)
    ensures |r| == |s| && forall k :: 0 <= k < |s| ==> r[k] == if s[k] == '\\' then '/' else s[k]
  {
    seq(|s|, i requires 0 <= i < |s| => if s[i] == '\\' then '/' else s[i])
  }

  /** The segments a raw path stands for. */
  function SegmentsOf(decode: string -> string, raw: string): (segments: seq<string>)
    ensures AreSegments(segments)
  {
    Segments(Slashed(Decoded(decode, raw, DECODE_ROUNDS)))
  }

  method NormalisePath(decode: string -> string, pathname: string) returns (r: string)
    ensures r == PathText(SegmentsOf(decode, pathname))
  {
    var decoded := pathname;
    var round := 0;
    while round < DECODE_ROUNDS
      invariant 0 <= round <= DECODE_ROUNDS
      invariant Decoded(decode, decoded, DECODE_ROUNDS - round) == Decoded(decode, pathname, DECODE_ROUNDS)
    {
      var next := decode(decoded);
      if next == decoded { break; }
      decoded := next;
      round := round + 1;
    }
    r := ResolveSegments(Slashed(decoded));
  }

  /** The text test `excluded` makes of one prefix. */
  predicate ExcludedBy(decode: string -> string, lower: string -> string, path: string, raw: string) {
    StartsWith(lower(path), lower(PathText(SegmentsOf(decode, raw))))
  }

  /** The decision on text: no excluded prefix, and some included one when there are any. */
  predicate Allowed(decode: string -> string, lower: string -> string, pathname: string,
                    included: seq<string>, excluded: seq<string>)
  {
    var path := PathText(SegmentsOf(decode, pathname));
    && !(exists raw :: raw in excluded && ExcludedBy(decode, lower, path, raw))
    && (included == [] || exists raw :: raw in included && IncludedBy(path, PathText(SegmentsOf(decode, raw))))
  }

  method Excluded(decode: string -> string, lower: string -> string, path: string, prefixes: seq<string>)
    returns (hit: bool)
    ensures hit <==> exists raw :: raw in prefixes && ExcludedBy(decode, lower, path, raw)
  {
    var subject := lower(path);
    for i := 0 to |prefixes|
      invariant forall raw :: raw in prefixes[..i] ==> !ExcludedBy(decode, lower, path, raw)
    {
      var prefix := NormalisePath(decode, prefixes[i]);
      if StartsWith(subject, lower(prefix)) {
        assert prefixes[i] in prefixes && ExcludedBy(decode, lower, path, prefixes[i]);
        return true;
      }
    }
    return false;
  }

  method Included(decode: string -> string, path: string, prefixes: seq<string>) returns (hit: bool)
    ensures hit <==> exists raw :: raw in prefixes && IncludedBy(path, PathText(SegmentsOf(decode, raw)))
  {
    for i := 0 to |prefixes|
      invariant forall raw :: raw in prefixes[..i] ==> !IncludedBy(path, PathText(SegmentsOf(decode, raw)))
    {
      var prefix := NormalisePath(decode, prefixes[i]);
      if IncludedBy(path, prefix) {
        assert prefixes[i] in prefixes;
        return true;
      }
    }
    return false;
  }

  method PathAllowed(decode: string -> string, lower: string -> string, pathname: string,
                     included: seq<string>, excluded: seq<string>) returns (ok: bool)
    ensures ok <==> Allowed(decode, lower, pathname, included, excluded)
  {
    var path := NormalisePath(decode, pathname);
    var out := Excluded(decode, lower, path, excluded);
    if out { return false; }
    if included == [] { return true; }
    ok := Included(decode, path, included);
  }

  /** Some excluded prefix over-matches the segments, ignoring case. */
  predicate UnderExcluded(decode: string -> string, lower: string -> string, p: seq<string>, excluded: seq<string>) {
    exists raw :: raw in excluded && OverMatches(FoldAll(lower, SegmentsOf(decode, raw)), FoldAll(lower, p))
  }

  /** Some included prefix is a prefix of the segments. */
  predicate UnderIncluded(decode: string -> string, p: seq<string>, included: seq<string>) {
    exists raw :: raw in included && SegmentsOf(decode, raw) <= p
  }

  lemma ExcludedMeans(decode: string -> string, lower: string -> string, p: seq<string>, raw: string)
    requires FoldsSegments(lower) && AreSegments(p)
    ensures ExcludedBy(decode, lower, PathText(p), raw) <==>
            OverMatches(FoldAll(lower, SegmentsOf(decode, raw)), FoldAll(lower, p))
  {
    FoldPath(lower, p);
    FoldPath(lower, SegmentsOf(decode, raw));
    TextPrefixIsOverMatch(FoldAll(lower, p), FoldAll(lower, SegmentsOf(decode, raw)));
  }

  /**
   * For every case folding: a path is allowed exactly when no excluded prefix
   * over-matches its segments ignoring case and, if any are given, an included
   * prefix's segments begin its own.
   */
  lemma AllowedExactly(decode: string -> string, lower: string -> string, pathname: string,
                       included: seq<string>, excluded: seq<string>)
    requires FoldsSegments(lower)
    ensures var p := SegmentsOf(decode, pathname);
            Allowed(decode, lower, pathname, included, excluded) <==>
            !UnderExcluded(decode, lower, p, excluded) && (included == [] || UnderIncluded(decode, p, included))
  {
    var p := SegmentsOf(decode, pathname);
    forall raw ensures
      ExcludedBy(decode, lower, PathText(p), raw) <==>
      OverMatches(FoldAll(lower, SegmentsOf(decode, raw)), FoldAll(lower, p))
    {
      ExcludedMeans(decode, lower, p, raw);
    }
    forall raw ensures IncludedBy(PathText(p), PathText(SegmentsOf(decode, raw))) <==> SegmentsOf(decode, raw) <= p {
      IncludedIsSegmentPrefix(p, SegmentsOf(decode, raw));
    }
  }

  lemma PrefixOverMatches(q: seq<string>, p: seq<string>)
    requires q <= p
    ensures OverMatches(q, p)
  {
    if q != [] {
      assert q[..|q| - 1] == p[..|q| - 1];
    }
  }

  /** Whatever lies segment-wise under an excluded path, in any case, is refused. */
  lemma NothingUnderAnExclusion(
      decode: string -> string, lower: string -> string, pathname: string,
      included: seq<string>, excluded: seq<string>, raw: string)
    requires FoldsSegments(lower) && raw in excluded
    requires FoldAll(lower, SegmentsOf(decode, raw)) <= FoldAll(lower, SegmentsOf(decode, pathname))
    ensures !Allowed(decode, lower, pathname, included, excluded)
  {
    var p := SegmentsOf(decode, pathname);
    PrefixOverMatches(FoldAll(lower, SegmentsOf(decode, raw)), FoldAll(lower, p));
    ExcludedMeans(decode, lower, p, raw);
  }
}
