/**
 * The robots.txt matcher (sections 2.2.1 to 2.2.3 of RFC 9309): the wildcard
 * walk, the longest-rule decision and the grouping of directives.
 */
module Robots {

  // ------------------------------------------------------------- the wildcard

  /** The declarative meaning of a pattern: `*` stands for any run of characters, all else for itself. */
  ghost predicate Matches(p: string, t: string) {
    if p == [] then t == []
    else if p[0] == '*' then exists k :: 0 <= k <= |t| && Matches(p[1..], t[k..])
    else t != [] && t[0] == p[0] && Matches(p[1..], t[1..])
  }

  /** The rest of the pattern matches the rest of the text. */
  ghost predicate From(p: string, i: nat, t: string, j: nat)
    requires i <= |p| && j <= |t|
  {
    Matches(p[i..], t[j..])
  }

  /** The rest of the pattern matches the text from some position at or after `j`. */
  ghost predicate FromSome(p: string, i: nat, t: string, j: nat)
    requires i <= |p| && j <= |t|
  {
    exists k :: j <= k <= |t| && From(p, i, t, k)
  }

  lemma StarStep(p: string, i: nat, t: string, j: nat)
    requires i < |p| && j <= |t| && p[i] == '*'
    ensures From(p, i, t, j) <==> FromSome(p, i + 1, t, j)
  {
    assert p[i..][1..] == p[i + 1..];
    if From(p, i, t, j) {
      var k :| 0 <= k <= |t[j..]| && Matches(p[i..][1..], t[j..][k..]);
      assert t[j..][k..] == t[j + k..];
      assert From(p, i + 1, t, j + k);
    }
    if FromSome(p, i + 1, t, j) {
      var k :| j <= k <= |t| && From(p, i + 1, t, k);
      assert t[j..][k - j..] == t[k..];
      assert Matches(p[i..][1..], t[j..][k - j..]);
    }
  }

  lemma LiteralStep(p: string, i: nat, t: string, j: nat)
    requires i < |p| && j <= |t| && p[i] != '*'
    ensures From(p, i, t, j) <==> j < |t| && p[i] == t[j] && From(p, i + 1, t, j + 1)
  {
    assert p[i..][1..] == p[i + 1..];
    if j < |t| {
      assert t[j..][1..] == t[j + 1..];
    }
  }

  /** The n pattern characters from i on are the text's from j on, and none is a star. */
  ghost predicate Literal(p: string, i: int, n: int, t: string, j: int) {
    && 0 <= i <= i + n <= |p| && 0 <= j <= j + n <= |t|
    && forall k :: i <= k < i + n ==> p[k] == t[k - i + j]
  }

  ghost predicate StarFree(p: string, i: int, n: int) {
    0 <= i <= i + n <= |p| && forall k :: i <= k < i + n ==> p[k] != '*'
  }

  /** A stretch of literals has to be met character by character. */
  lemma {:induction false} LiteralRun(p: string, i: nat, n: nat, t: string, j: nat)
    requires StarFree(p, i, n) && j <= |t|
    ensures From(p, i, t, j) <==> Literal(p, i, n, t, j) && From(p, i + n, t, j + n)
    decreases n
  {
    if n > 0 {
      LiteralStep(p, i, t, j);
      if j < |t| {
        assert StarFree(p, i + 1, n - 1);
        LiteralRun(p, i + 1, n - 1, t, j + 1);
        assert Literal(p, i, n, t, j) <==> p[i] == t[j] && Literal(p, i + 1, n - 1, t, j + 1);
      }
    }
  }

  /** Failing at the mark, the star has to take at least one character more. */
  lemma MarkAdvances(p: string, i: nat, t: string, mark: nat)
    requires i <= |p| && mark < |t| && !From(p, i, t, mark)
    ensures FromSome(p, i, t, mark) <==> FromSome(p, i, t, mark + 1)
  {
  }

  /**
   * Why remembering only the last star is enough: when a later star is reached
   * having matched the literals in between as early as possible, whatever the
   * earlier star could still do the later one can do too.
   */
  lemma LaterStarSuffices(p: string, first: nat, mark: nat, n: nat, t: string)
    requires first + n < |p| && p[first + n] == '*' && StarFree(p, first, n) && Literal(p, first, n, t, mark)
    ensures FromSome(p, first, t, mark) <==> FromSome(p, first + n + 1, t, mark + n)
  {
    if FromSome(p, first, t, mark) {
      var k :| mark <= k <= |t| && From(p, first, t, k);
      LiteralRun(p, first, n, t, k);
      StarStep(p, first + n, t, k + n);
      var m :| k + n <= m <= |t| && From(p, first + n + 1, t, m);
    }
    if FromSome(p, first + n + 1, t, mark + n) {
      StarStep(p, first + n, t, mark + n);
      LiteralRun(p, first, n, t, mark);
    }
  }

  /** At the end of the text only the earliest placement after the last star can still match. */
  lemma EndReached(p: string, first: nat, mark: nat, n: nat, t: string)
    requires StarFree(p, first, n) && Literal(p, first, n, t, mark) && mark + n == |t|
    ensures FromSome(p, first, t, mark) <==> From(p, first + n, t, |t|)
  {
    LiteralRun(p, first, n, t, mark);
    forall k | mark < k <= |t| ensures !From(p, first, t, k) {
      LiteralRun(p, first, n, t, k);
    }
  }

  lemma {:induction false} StarsEndAtText(p: string, i: nat, j: nat, t: string)
    requires i <= j <= |p| && (forall k :: i <= k < j ==> p[k] == '*') && (j < |p| ==> p[j] != '*')
    ensures From(p, i, t, |t|) <==> j == |p|
    decreases j - i
  {
    if i < j {
      StarsEndAtText(p, i + 1, j, t);
      StarStep(p, i, t, |t|);
      if FromSome(p, i + 1, t, |t|) {
        var k :| |t| <= k <= |t| && From(p, i + 1, t, k);
      }
    } else if j < |p| {
      LiteralStep(p, j, t, |t|);
    }
  }

  /** Where the walk stands: the literals after the last star are matched from the mark on. */
  ghost predicate Placed(pattern: string, text: string, p: int, t: int, star: int, mark: int) {
    && 0 <= mark <= t <= |text| && -1 <= star < p <= |pattern|
    && p - (star + 1) == t - mark
    && StarFree(pattern, star + 1, t - mark) && Literal(pattern, star + 1, t - mark, text, mark)
    && (star == -1 ==> mark == 0)
  }

  /** The whole question has come down to what the last star takes. */
  ghost predicate Reduced(pattern: string, text: string, star: int, mark: int)
    requires -1 <= star < |pattern| && 0 <= mark <= |text|
  {
    if star == -1 then Matches(pattern, text) <==> From(pattern, 0, text, 0)
    else Matches(pattern, text) <==> FromSome(pattern, star + 1, text, mark)
  }

  /** The turns the walk may have taken by the time it stands there. */
  ghost function Budget(n: nat, t: int, star: int, mark: int): int {
    star + 1 + mark * (n + 1) + (t - mark)
  }

  lemma BudgetAtStar(n: nat, t: int, star: int, mark: int, later: int)
    requires 0 <= mark <= t <= n && star < later
    ensures Budget(n, t, later, t) > Budget(n, t, star, mark)
  {
    assert t * (n + 1) == mark * (n + 1) + (t - mark) * (n + 1);
    assert (t - mark) * (n + 1) >= t - mark;
  }

  lemma BudgetAtFallBack(n: nat, t: int, star: int, mark: int)
    requires 0 <= mark <= t < n
    ensures Budget(n, mark + 1, star, mark + 1) > Budget(n, t, star, mark)
  {
    assert (mark + 1) * (n + 1) == mark * (n + 1) + (n + 1);
  }

  lemma BudgetIsBounded(n: nat, t: int, star: int, mark: int)
    requires 0 <= mark <= t <= n
    ensures Budget(n, t, star, mark) <= star + 1 + (n + 1) * (n + 1)
  {
    assert t * (n + 1) == mark * (n + 1) + (t - mark) * (n + 1);
    assert (t - mark) * (n + 1) >= t - mark;
    assert t * (n + 1) <= (n + 1) * (n + 1);
  }

  lemma TakeStar(pattern: string, text: string, p: int, t: int, star: int, mark: int)
    requires Placed(pattern, text, p, t, star, mark) && Reduced(pattern, text, star, mark)
    requires p < |pattern| && pattern[p] == '*'
    ensures Placed(pattern, text, p + 1, t, p, t) && Reduced(pattern, text, p, t)
  {
    if star >= 0 {
      LaterStarSuffices(pattern, star + 1, mark, t - mark, text);
    } else {
      LiteralRun(pattern, 0, p, text, 0);
      StarStep(pattern, p, text, t);
    }
  }

  lemma TakeCharacter(pattern: string, text: string, p: int, t: int, star: int, mark: int)
    requires Placed(pattern, text, p, t, star, mark) && t < |text| && p < |pattern|
    requires pattern[p] == text[t] && pattern[p] != '*'
    ensures Placed(pattern, text, p + 1, t + 1, star, mark)
  {
  }

  /** Stuck: the literals after the star do not fit at the mark. */
  lemma Stuck(pattern: string, text: string, p: int, t: int, star: int, mark: int)
    requires Placed(pattern, text, p, t, star, mark) && t < |text|
    requires p < |pattern| ==> pattern[p] != '*' && pattern[p] != text[t]
    ensures !From(pattern, star + 1, text, mark)
  {
    LiteralRun(pattern, star + 1, t - mark, text, mark);
    if p < |pattern| {
      LiteralStep(pattern, p, text, t);
    }
  }

  lemma FallBack(pattern: string, text: string, p: int, t: int, star: int, mark: int)
    requires Placed(pattern, text, p, t, star, mark) && Reduced(pattern, text, star, mark)
    requires star >= 0 && t < |text| && !From(pattern, star + 1, text, mark)
    ensures Placed(pattern, text, star + 1, mark + 1, star, mark + 1) && Reduced(pattern, text, star, mark + 1)
  {
    MarkAdvances(pattern, star + 1, text, mark);
  }

  lemma TextExhausted(pattern: string, text: string, p: int, star: int, mark: int)
    requires Placed(pattern, text, p, |text|, star, mark) && Reduced(pattern, text, star, mark)
    ensures Matches(pattern, text) <==> From(pattern, p, text, |text|)
  {
    if star >= 0 {
      EndReached(pattern, star + 1, mark, |text| - mark, text);
    } else {
      LiteralRun(pattern, 0, p, text, 0);
    }
  }

  /** The walk's invariant, with the turns taken so far. */
  ghost predicate Standing(pattern: string, text: string, p: int, t: int, star: int, mark: int, steps: int) {
    && Placed(pattern, text, p, t, star, mark) && Reduced(pattern, text, star, mark)
    && steps <= Budget(|text|, t, star, mark)
  }

  lemma StarTurn(pattern: string, text: string, p: int, t: int, star: int, mark: int, steps: int)
    requires Standing(pattern, text, p, t, star, mark, steps) && p < |pattern| && pattern[p] == '*'
    ensures Standing(pattern, text, p + 1, t, p, t, steps + 1) && star < p
  {
    TakeStar(pattern, text, p, t, star, mark);
    BudgetAtStar(|text|, t, star, mark, p);
  }

  lemma CharacterTurn(pattern: string, text: string, p: int, t: int, star: int, mark: int, steps: int)
    requires Standing(pattern, text, p, t, star, mark, steps) && t < |text| && p < |pattern|
    requires pattern[p] == text[t] && pattern[p] != '*'
    ensures Standing(pattern, text, p + 1, t + 1, star, mark, steps + 1)
  {
    TakeCharacter(pattern, text, p, t, star, mark);
  }

  lemma StuckTurn(pattern: string, text: string, p: int, t: int, star: int, mark: int, steps: int)
    requires Standing(pattern, text, p, t, star, mark, steps) && t < |text|
    requires p < |pattern| ==> pattern[p] != '*' && pattern[p] != text[t]
    ensures star == -1 ==> !Matches(pattern, text) && steps + 1 <= |pattern| + (|text| + 1) * (|text| + 1)
    ensures star != -1 ==> Standing(pattern, text, star + 1, mark + 1, star, mark + 1, steps + 1)
  {
    Stuck(pattern, text, p, t, star, mark);
    if star == -1 {
      assert Budget(|text|, t, -1, 0) == t;
      assert |text| + 1 <= (|text| + 1) * (|text| + 1);
      assert pattern[0..] == pattern && text[0..] == text;
    } else {
      FallBack(pattern, text, p, t, star, mark);
      BudgetAtFallBack(|text|, t, star, mark);
    }
  }

  /** Past the stars that begin at some place. */
  method SkipStars(pattern: string, from: nat) returns (p: nat)
    requires from <= |pattern|
    ensures from <= p <= |pattern| && (forall k :: from <= k < p ==> pattern[k] == '*')
    ensures p < |pattern| ==> pattern[p] != '*'
  {
    p := from;
    while p < |pattern| && pattern[p] == '*'
      invariant from <= p <= |pattern| && forall k :: from <= k < p ==> pattern[k] == '*'
    {
      p := p + 1;
    }
  }

  /**
   * The two-index walk. It decides the declarative match, and its main loop
   * takes at most |pattern| + (|text| + 1)^2 turns.
   */
  method GlobMatches(pattern: string, text: string) returns (ok: bool, ghost steps: nat)
    ensures ok <==> Matches(pattern, text)
    ensures steps <= |pattern| + (|text| + 1) * (|text| + 1)
  {
    var p, t, star, mark := 0, 0, -1, 0;
    steps := 0;
    assert pattern[0..] == pattern && text[0..] == text;
    while t < |text|
      invariant 0 <= mark <= t <= |text| && -1 <= star < p <= |pattern|
      invariant Standing(pattern, text, p, t, star, mark, steps)
      decreases |pattern| - star, |text| - mark, |text| - t
    {
      if p < |pattern| && pattern[p] == '*' {
        StarTurn(pattern, text, p, t, star, mark, steps);
        star := p;
        p := p + 1;
        mark := t;
      } else if p < |pattern| && pattern[p] == text[t] {
        CharacterTurn(pattern, text, p, t, star, mark, steps);
        p, t := p + 1, t + 1;
      } else {
        StuckTurn(pattern, text, p, t, star, mark, steps);
        if star == -1 { return false, steps + 1; }
        mark := mark + 1;
        p, t := star + 1, mark;
      }
      steps := steps + 1;
    }
    BudgetIsBounded(|text|, t, star, mark);
    TextExhausted(pattern, text, p, star, mark);
    ghost var reached := p;
    p := SkipStars(pattern, p);
    ok := p == |pattern|;
    StarsEndAtText(pattern, reached, p, text);
  }

  // ------------------------------------------------------------------- rules

  ghost predicate RuleApplies(rule: string, target: string) {
    if rule != [] && rule[|rule| - 1] == '$' then Matches(rule[..|rule| - 1], target)
    else Matches(rule + "*", target)
  }

  method RuleMatches(rule: string, target: string) returns (ok: bool)
    ensures ok <==> RuleApplies(rule, target)
  {
    var anchored := |rule| > 0 && rule[|rule| - 1] == '$';
    ghost var steps;
    ok, steps := GlobMatches(if anchored then rule[..|rule| - 1] else rule + "*", target);
  }

  /** An unanchored rule applies exactly when it matches some prefix of the target. */
  lemma {:induction false} UnanchoredMatchesAPrefix(body: string, t: string)
    ensures Matches(body + "*", t) <==> exists k :: 0 <= k <= |t| && Matches(body, t[..k])
  {
    var rule := body + "*";
    if body == [] {
      assert rule[1..] == [] && t[|t|..] == [] && t[..0] == [];
      assert Matches(rule[1..], t[|t|..]) && Matches(body, t[..0]);
    } else {
      assert rule[1..] == body[1..] + "*";
      if body[0] == '*' {
        forall j | 0 <= j <= |t|
          ensures Matches(rule[1..], t[j..]) <==> exists k :: j <= k <= |t| && Matches(body[1..], t[..k][j..])
        {
          UnanchoredMatchesAPrefix(body[1..], t[j..]);
          forall m | 0 <= m <= |t[j..]| ensures t[j..][..m] == t[..j + m][j..] {
          }
          if Matches(rule[1..], t[j..]) {
            var m :| 0 <= m <= |t[j..]| && Matches(body[1..], t[j..][..m]);
            assert t[j..][..m] == t[..j + m][j..];
          }
          if k :| j <= k <= |t| && Matches(body[1..], t[..k][j..]) {
            assert t[j..][..k - j] == t[..k][j..];
          }
        }
        if Matches(rule, t) {
          var j :| 0 <= j <= |t| && Matches(rule[1..], t[j..]);
          var k :| j <= k <= |t| && Matches(body[1..], t[..k][j..]);
          assert Matches(body, t[..k]);
        }
        if k :| 0 <= k <= |t| && Matches(body, t[..k]) {
          var j :| 0 <= j <= |t[..k]| && Matches(body[1..], t[..k][j..]);
          assert Matches(rule[1..], t[j..]);
        }
      } else if t != [] {
        UnanchoredMatchesAPrefix(body[1..], t[1..]);
        if m :| 0 <= m <= |t[1..]| && Matches(body[1..], t[1..][..m]) {
          assert t[..m + 1][1..] == t[1..][..m];
        }
        if k :| 1 <= k <= |t| && Matches(body[1..], t[..k][1..]) {
          assert t[..k][1..] == t[1..][..k - 1];
        }
      }
    }
  }

  /** A rule without wildcards applies exactly to the targets that start with it. */
  lemma PlainRuleIsAPrefix(rule: string, target: string)
    requires '*' !in rule && (rule == [] || rule[|rule| - 1] != '$')
    ensures RuleApplies(rule, target) <==> rule <= target
  {
    UnanchoredMatchesAPrefix(rule, target);
    assert StarFree(rule, 0, |rule|);
    forall k | 0 <= k <= |target| ensures Matches(rule, target[..k]) <==> rule == target[..k] {
      assert From(rule, 0, target[..k], 0) <==> Matches(rule, target[..k]);
      LiteralRun(rule, 0, |rule|, target[..k], 0);
    }
    if rule <= target {
      assert Matches(rule, target[..|rule|]);
    }
  }

  datatype Rules = Rules(disallowed: seq<string>, allowed: seq<string>, sitemaps: seq<string>)

  /** The most specific rule decides, and on equal length Allow does: no applicable Disallow goes unanswered. */
  ghost predicate Permitted(target: string, rules: Rules) {
    forall d :: d in rules.disallowed && RuleApplies(d, target) ==>
      exists a :: a in rules.allowed && RuleApplies(a, target) && |a| >= |d|
  }

  /** `best` is the length of the longest rule that applies, -1 when none does. */
  ghost predicate IsLongest(patterns: seq<string>, target: string, best: int) {
    && best >= -1
    && (forall i :: 0 <= i < |patterns| && RuleApplies(patterns[i], target) ==> |patterns[i]| <= best)
    && (best >= 0 ==> exists i :: 0 <= i < |patterns| && RuleApplies(patterns[i], target) && |patterns[i]| == best)
  }

  lemma LongerStill(patterns: seq<string>, target: string, best: int, rule: string)
    requires IsLongest(patterns, target, best)
    ensures var better := RuleApplies(rule, target) && |rule| > best;
            IsLongest(patterns + [rule], target, if better then |rule| else best)
  {
    var all := patterns + [rule];
    assert all[|patterns|] == rule;
    if best >= 0 {
      var i :| 0 <= i < |patterns| && RuleApplies(patterns[i], target) && |patterns[i]| == best;
      assert all[i] == patterns[i];
    }
  }

  method Longest(patterns: seq<string>, target: string) returns (best: int)
    ensures IsLongest(patterns, target, best)
  {
    best := -1;
    for i := 0 to |patterns|
      invariant IsLongest(patterns[..i], target, best)
    {
      LongerStill(patterns[..i], target, best, patterns[i]);
      assert patterns[..i] + [patterns[i]] == patterns[..i + 1];
      var applies := RuleMatches(patterns[i], target);
      if applies && |patterns[i]| > best {
        best := |patterns[i]|;
      }
    }
    assert patterns[..|patterns|] == patterns;
  }

  lemma LongestDecides(target: string, rules: Rules, a: int, d: int)
    requires IsLongest(rules.allowed, target, a) && IsLongest(rules.disallowed, target, d)
    ensures a >= d <==> Permitted(target, rules)
  {
    if a >= d {
      forall rule | rule in rules.disallowed && RuleApplies(rule, target)
        ensures exists b :: b in rules.allowed && RuleApplies(b, target) && |b| >= |rule|
      {
        assert |rule| <= d && a >= 0;
      }
    }
  }

  method RobotsAllows(target: string, rules: Rules) returns (ok: bool)
    ensures ok <==> Permitted(target, rules)
  {
    var a := Longest(rules.allowed, target);
    var d := Longest(rules.disallowed, target);
    LongestDecides(target, rules, a, d);
    ok := a >= d;
  }

  // ------------------------------------------------------------------ groups

  datatype Directive = Directive(key: string, value: string)

  datatype Group = Group(agents: seq<string>, disallowed: seq<string>, allowed: seq<string>)

  /** Whether the last directive before `n`, sitemaps aside, names a user agent. */
  predicate AgentsOpen(ds: seq<Directive>, n: nat)
    requires n <= |ds|
  {
    n > 0 && (ds[n - 1].key == "user-agent" || (ds[n - 1].key == "sitemap" && AgentsOpen(ds, n - 1)))
  }

  /** A user-agent line opens a group unless it continues the agent lines before it. */
  predicate OpensGroup(ds: seq<Directive>, i: nat)
    requires i < |ds|
  {
    ds[i].key == "user-agent" && !AgentsOpen(ds, i)
  }

  function GroupCount(ds: seq<Directive>, n: nat): nat
    requires n <= |ds|
  {
    if n == 0 then 0 else GroupCount(ds, n - 1) + if OpensGroup(ds, n - 1) then 1 else 0
  }

  /** The values the first n directives give group g under one key, in order. */
  function Gathered(ds: seq<Directive>, n: nat, g: nat, key: string): seq<string>
    requires n <= |ds|
  {
    if n == 0 then []
    else
      Gathered(ds, n - 1, g, key)
      + if Belongs(ds, n - 1, g) && ds[n - 1].key == key then [ds[n - 1].value] else []
  }

  /** The directive stands in group g, and is not a rule with an empty value. */
  predicate Belongs(ds: seq<Directive>, i: nat, g: nat)
    requires i < |ds|
  {
    GroupCount(ds, i + 1) == g + 1 && (ds[i].key == "user-agent" || ds[i].value != "")
  }

  function Sitemaps(ds: seq<Directive>, n: nat): seq<string>
    requires n <= |ds|
  {
    if n == 0 then []
    else Sitemaps(ds, n - 1) + if ds[n - 1].key == "sitemap" && ds[n - 1].value != "" then [ds[n - 1].value] else []
  }

  /** Sitemaps belong to no group: each Sitemap line with a value counts, wherever it stands. */
  lemma {:induction false} SitemapsExactly(ds: seq<Directive>, n: nat, value: string)
    requires n <= |ds|
    ensures value in Sitemaps(ds, n) <==>
            value != "" && exists i :: 0 <= i < n && ds[i] == Directive("sitemap", value)
  {
    if n > 0 {
      SitemapsExactly(ds, n - 1, value);
    }
  }

  function GroupAt(ds: seq<Directive>, n: nat, g: nat): Group
    requires n <= |ds|
  {
    Group(Gathered(ds, n, g, "user-agent"), Gathered(ds, n, g, "disallow"), Gathered(ds, n, g, "allow"))
  }

  /** The directive is among the first n, stands in group g, and has the key and the value. */
  ghost predicate StandsIn(ds: seq<Directive>, n: nat, g: nat, key: string, value: string)
    requires n <= |ds|
  {
    exists i :: 0 <= i < n && ds[i] == Directive(key, value) && GroupCount(ds, i + 1) == g + 1
  }

  lemma {:induction false} GatheredExactly(ds: seq<Directive>, n: nat, g: nat, key: string, value: string)
    requires n <= |ds| && (key == "user-agent" || value != "")
    ensures value in Gathered(ds, n, g, key) <==> StandsIn(ds, n, g, key, value)
  {
    if n > 0 {
      GatheredExactly(ds, n - 1, g, key, value);
      if StandsIn(ds, n, g, key, value) {
        var i :| 0 <= i < n && ds[i] == Directive(key, value) && GroupCount(ds, i + 1) == g + 1;
        if i < n - 1 {
          assert StandsIn(ds, n - 1, g, key, value);
        } else {
          assert Belongs(ds, n - 1, g);
        }
      }
      if value in Gathered(ds, n, g, key) && value !in Gathered(ds, n - 1, g, key) {
        assert ds[n - 1] == Directive(key, value);
      }
    }
  }

  lemma {:induction false} NoEmptyRule(ds: seq<Directive>, n: nat, g: nat, key: string)
    requires n <= |ds| && key != "user-agent"
    ensures "" !in Gathered(ds, n, g, key)
  {
    if n > 0 {
      NoEmptyRule(ds, n - 1, g, key);
    }
  }

  /** A group's agents, Disallow and Allow rules are those directives that stand in it; a rule without a value is none. */
  ghost predicate GroupHolds(ds: seq<Directive>, g: nat, group: Group) {
    && (forall value :: value in group.agents <==> StandsIn(ds, |ds|, g, "user-agent", value))
    && (forall value :: value in group.disallowed <==> value != "" && StandsIn(ds, |ds|, g, "disallow", value))
    && forall value :: value in group.allowed <==> value != "" && StandsIn(ds, |ds|, g, "allow", value)
  }

  lemma GroupAtHolds(ds: seq<Directive>, g: nat)
    ensures GroupHolds(ds, g, GroupAt(ds, |ds|, g))
  {
    NoEmptyRule(ds, |ds|, g, "disallow");
    NoEmptyRule(ds, |ds|, g, "allow");
    forall value ensures value in Gathered(ds, |ds|, g, "user-agent") <==> StandsIn(ds, |ds|, g, "user-agent", value) {
      GatheredExactly(ds, |ds|, g, "user-agent", value);
    }
    forall value | value != ""
      ensures value in Gathered(ds, |ds|, g, "disallow") <==> StandsIn(ds, |ds|, g, "disallow", value)
      ensures value in Gathered(ds, |ds|, g, "allow") <==> StandsIn(ds, |ds|, g, "allow", value)
    {
      GatheredExactly(ds, |ds|, g, "disallow", value);
      GatheredExactly(ds, |ds|, g, "allow", value);
    }
  }

  lemma {:induction false} NothingYet(ds: seq<Directive>, n: nat, g: nat, key: string)
    requires n <= |ds| && g >= GroupCount(ds, n)
    ensures Gathered(ds, n, g, key) == []
  {
    if n > 0 {
      NothingYet(ds, n - 1, g, key);
    }
  }

  /** Directives, already lower-cased and trimmed, sorted into groups; sitemaps belong to none. */
  method ReadDirectives(ds: seq<Directive>) returns (groups: seq<Group>, sitemaps: seq<string>)
    ensures |groups| == GroupCount(ds, |ds|)
    ensures forall g :: 0 <= g < |groups| ==> groups[g] == GroupAt(ds, |ds|, g) && GroupHolds(ds, g, groups[g])
    ensures sitemaps == Sitemaps(ds, |ds|)
  {
    groups, sitemaps := [], [];
    var lastWasAgent := false;
    for n := 0 to |ds|
      invariant |groups| == GroupCount(ds, n)
      invariant forall g :: 0 <= g < |groups| ==> groups[g] == GroupAt(ds, n, g)
      invariant sitemaps == Sitemaps(ds, n)
      invariant lastWasAgent == AgentsOpen(ds, n)
      invariant lastWasAgent ==> groups != []
    {
      var d := ds[n];
      if d.key == "sitemap" {
        if d.value != "" { sitemaps := sitemaps + [d.value]; }
        continue;
      }
      if d.key == "user-agent" {
        if groups == [] || !lastWasAgent {
          NothingYet(ds, n, |groups|, "user-agent");
          NothingYet(ds, n, |groups|, "disallow");
          NothingYet(ds, n, |groups|, "allow");
          groups := groups + [Group([], [], [])];
        }
        var last := |groups| - 1;
        groups := groups[last := groups[last].(agents := groups[last].agents + [d.value])];
      } else if groups != [] && d.value != "" {
        var last := |groups| - 1;
        if d.key == "disallow" {
          groups := groups[last := groups[last].(disallowed := groups[last].disallowed + [d.value])];
        }
        if d.key == "allow" {
          groups := groups[last := groups[last].(allowed := groups[last].allowed + [d.value])];
        }
      }
      lastWasAgent := d.key == "user-agent";
    }
    forall g | 0 <= g < |groups| ensures GroupHolds(ds, g, groups[g]) {
      GroupAtHolds(ds, g);
    }
  }

  /** Consecutive user-agent lines share the rules that follow: sitemaps between them do not part them. */
  lemma {:induction false} ConsecutiveAgentsShareAGroup(ds: seq<Directive>, i: nat, j: nat)
    requires i < j < |ds| && ds[i].key == "user-agent"
    requires forall k :: i < k <= j ==> ds[k].key in {"user-agent", "sitemap"}
    ensures AgentsOpen(ds, j + 1) && GroupCount(ds, j + 1) == GroupCount(ds, i + 1)
  {
    if i + 1 < j {
      ConsecutiveAgentsShareAGroup(ds, i, j - 1);
    }
  }

  predicate Contains(s: string, part: string) {
    exists k :: 0 <= k <= |s| && part <= s[k..]
  }

  predicate Names(g: Group, token: string) {
    exists a :: a in g.agents && a != "*" && Contains(token, a)
  }

  function FirstWhere(groups: seq<Group>, ok: Group -> bool): (i: nat)
    ensures i <= |groups| && (i < |groups| ==> ok(groups[i]))
    ensures forall k :: 0 <= k < i ==> !ok(groups[k])
  {
    if groups == [] || ok(groups[0]) then 0
    else
      var rest := FirstWhere(groups[1..], ok);
      assert forall k :: 0 < k < 1 + rest ==> groups[k] == groups[1..][k - 1];
      1 + rest
  }

  /** The group obeyed: the first naming us, else the first wildcard group, else none. */
  function PickGroup(groups: seq<Group>, token: string): (i: nat)
    ensures i <= |groups|
    ensures (exists g :: g in groups && Names(g, token)) ==>
      i < |groups| && Names(groups[i], token) && forall k :: 0 <= k < i ==> !Names(groups[k], token)
    ensures (forall g :: g in groups ==> !Names(g, token)) && (exists g :: g in groups && "*" in g.agents) ==>
      i < |groups| && "*" in groups[i].agents && forall k :: 0 <= k < i ==> "*" !in groups[k].agents
    ensures i == |groups| <==> forall g :: g in groups ==> !Names(g, token) && "*" !in g.agents
  {
    var named := FirstWhere(groups, (g: Group) => Names(g, token));
    if named < |groups| then named else FirstWhere(groups, (g: Group) => "*" in g.agents)
  }
}
