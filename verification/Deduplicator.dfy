/** Collapsing findings that share a fingerprint. */
module Deduplicator {
  import opened Options
  import opened Text
  import opened FindingSort

  datatype RawFinding = RawFinding(
    detectorId: string, affectedUrl: string, affectedParameter: Option<string>, severity: Severity, title: string)

  /** The text that is hashed; an absent or empty parameter is `global`. */
  function RawKey(f: RawFinding): string {
    var parameter := if f.affectedParameter.Some? && f.affectedParameter.value != ""
                     then Trim(f.affectedParameter.value) else "global";
    Trim(f.detectorId) + "|" + Trim(f.affectedUrl) + "|" + parameter
  }

  function Parameter(f: RawFinding): string {
    if f.affectedParameter.Some? && f.affectedParameter.value != "" then Trim(f.affectedParameter.value) else "global"
  }

  lemma KeyPieces(f: RawFinding)
    requires '|' !in Trim(f.detectorId) && '|' !in Trim(f.affectedUrl)
    ensures Split(RawKey(f), '|') == [Trim(f.detectorId), Trim(f.affectedUrl)] + Split(Parameter(f), '|')
  {
    var d, u, p := Trim(f.detectorId), Trim(f.affectedUrl), Parameter(f);
    ThreePieces(d, u, p);
    assert RawKey(f) == d + ['|'] + (u + ['|'] + p);
  }

  lemma ThreePieces(d: string, u: string, p: string)
    requires '|' !in d && '|' !in u
    ensures Split(d + ['|'] + (u + ['|'] + p), '|') == [d, u] + Split(p, '|')
  {
    SplitWhole(d, '|');
    SplitWhole(u, '|');
    SplitAtSeparator(u, '|', p);
    SplitAtSeparator(d, '|', u + ['|'] + p);
    assert [d] + ([u] + Split(p, '|')) == [d, u] + Split(p, '|');
  }

  /**
   * Two findings are of one kind exactly when detector, URL and parameter agree, blanks
   * around them aside, and no parameter is `global`; provided no detector or URL holds a bar.
   */
  lemma SameKeyExactly(f: RawFinding, g: RawFinding)
    requires '|' !in Trim(f.detectorId) && '|' !in Trim(f.affectedUrl)
    requires '|' !in Trim(g.detectorId) && '|' !in Trim(g.affectedUrl)
    ensures RawKey(f) == RawKey(g) <==>
            && Trim(f.detectorId) == Trim(g.detectorId) && Trim(f.affectedUrl) == Trim(g.affectedUrl)
            && Parameter(f) == Parameter(g)
  {
    KeyPieces(f);
    KeyPieces(g);
    JoinSplit(Parameter(f), '|');
    JoinSplit(Parameter(g), '|');
    var a, b := Split(RawKey(f), '|'), Split(RawKey(g), '|');
    assert Split(Parameter(f), '|') == a[2..] && Split(Parameter(g), '|') == b[2..];
  }

  function Fingerprint(hash: string -> string, f: RawFinding): string {
    hash(RawKey(f))
  }

  /** The fingerprint of a finding, by some hash. */
  function FingerprintBy(hash: string -> string): RawFinding -> string {
    f => Fingerprint(hash, f)
  }

  /** The fingerprints, each once, in first-seen order. */
  function Keys(fingerprint: RawFinding -> string, findings: seq<RawFinding>): (keys: seq<string>)
    ensures forall i, j :: 0 <= i < j < |keys| ==> keys[i] != keys[j]
  {
    if findings == [] then []
    else
      var before, fp := Keys(fingerprint, findings[..|findings| - 1]), fingerprint(findings[|findings| - 1]);
      if fp in before then before else before + [fp]
  }

  /** The findings with a fingerprint, in order. */
  function Group(fingerprint: RawFinding -> string, findings: seq<RawFinding>, fp: string): (group: seq<RawFinding>)
    ensures forall i :: 0 <= i < |group| ==> fingerprint(group[i]) == fp
    ensures group != [] <==> fp in Keys(fingerprint, findings)
  {
    if findings == [] then []
    else
      var before, last := Group(fingerprint, findings[..|findings| - 1], fp), findings[|findings| - 1];
      if fingerprint(last) == fp then before + [last] else before
  }

  // -------------------------------------------------------- the stable sort

  function RankOf(f: RawFinding): nat {
    Position(f.severity)
  }

  /** The findings of one rank, in order. */
  function OfRank(group: seq<RawFinding>, rank: nat): seq<RawFinding> {
    if group == [] then []
    else OfRank(group[..|group| - 1], rank)
         + if RankOf(group[|group| - 1]) == rank then [group[|group| - 1]] else []
  }

  predicate Descending(s: seq<RawFinding>) {
    forall i, j :: 0 <= i < j < |s| ==> RankOf(s[i]) >= RankOf(s[j])
  }

  /** Behind everything at least as severe. */
  function Insert(s: seq<RawFinding>, f: RawFinding): (r: seq<RawFinding>)
    ensures |r| == |s| + 1
  {
    if s == [] || RankOf(s[|s| - 1]) >= RankOf(f) then s + [f]
    else Insert(s[..|s| - 1], f) + [s[|s| - 1]]
  }

  /** Sorted by severity, most severe first, keeping the order of equals. */
  function BySeverity(group: seq<RawFinding>): (r: seq<RawFinding>)
    ensures |r| == |group|
  {
    if group == [] then [] else Insert(BySeverity(group[..|group| - 1]), group[|group| - 1])
  }

  predicate AtLeast(s: seq<RawFinding>, low: nat) {
    forall i :: 0 <= i < |s| ==> RankOf(s[i]) >= low
  }

  lemma {:induction false} InsertAtLeast(s: seq<RawFinding>, f: RawFinding, low: nat)
    requires AtLeast(s, low) && RankOf(f) >= low
    ensures AtLeast(Insert(s, f), low)
  {
    if s != [] {
      InsertAtLeast(s[..|s| - 1], f, low);
    }
  }

  lemma AppendLow(s: seq<RawFinding>, last: RawFinding)
    requires Descending(s) && AtLeast(s, RankOf(last))
    ensures Descending(s + [last])
  {
  }

  lemma LastIsLow(s: seq<RawFinding>)
    requires Descending(s) && s != []
    ensures Descending(s[..|s| - 1]) && AtLeast(s, RankOf(s[|s| - 1])) && AtLeast(s[..|s| - 1], RankOf(s[|s| - 1]))
  {
  }

  lemma {:induction false} InsertSorts(s: seq<RawFinding>, f: RawFinding)
    requires Descending(s)
    ensures Descending(Insert(s, f))
  {
    if s != [] {
      var front, last := s[..|s| - 1], s[|s| - 1];
      LastIsLow(s);
      if RankOf(last) < RankOf(f) {
        InsertSorts(front, f);
        InsertAtLeast(front, f, RankOf(last));
        AppendLow(Insert(front, f), last);
      } else {
        assert AtLeast(s, RankOf(f));
        AppendLow(s, f);
      }
    }
  }

  lemma {:induction false} InsertKeeps(s: seq<RawFinding>, f: RawFinding)
    ensures multiset(Insert(s, f)) == multiset(s) + multiset{f}
  {
    if s != [] {
      InsertKeeps(s[..|s| - 1], f);
      assert s == s[..|s| - 1] + [s[|s| - 1]];
    }
  }

  lemma {:induction false} InsertIsStable(s: seq<RawFinding>, f: RawFinding, rank: nat)
    ensures OfRank(Insert(s, f), rank) == OfRank(s, rank) + if RankOf(f) == rank then [f] else []
  {
    if s == [] || RankOf(s[|s| - 1]) >= RankOf(f) {
      assert (s + [f])[..|s|] == s;
    } else {
      var front, last := s[..|s| - 1], s[|s| - 1];
      InsertIsStable(front, f, rank);
      assert (Insert(front, f) + [last])[..|s|] == Insert(front, f);
    }
  }

  lemma {:induction false} SortKeeps(group: seq<RawFinding>)
    ensures multiset(BySeverity(group)) == multiset(group)
  {
    if group != [] {
      var front, last := group[..|group| - 1], group[|group| - 1];
      SortKeeps(front);
      InsertKeeps(BySeverity(front), last);
      assert group == front + [last];
    }
  }

  lemma {:induction false} SortOrders(group: seq<RawFinding>)
    ensures Descending(BySeverity(group))
  {
    if group != [] {
      SortOrders(group[..|group| - 1]);
      InsertSorts(BySeverity(group[..|group| - 1]), group[|group| - 1]);
    }
  }

  /** The sort is stable: the findings of each rank keep their order. */
  lemma {:induction false} SortIsStable(group: seq<RawFinding>, rank: nat)
    ensures OfRank(BySeverity(group), rank) == OfRank(group, rank)
  {
    if group != [] {
      SortIsStable(group[..|group| - 1], rank);
      InsertIsStable(BySeverity(group[..|group| - 1]), group[|group| - 1], rank);
    }
  }

  lemma {:induction false} NoneOfRank(group: seq<RawFinding>, rank: nat)
    requires forall i :: 0 <= i < |group| ==> RankOf(group[i]) != rank
    ensures OfRank(group, rank) == []
  {
    if group != [] {
      NoneOfRank(group[..|group| - 1], rank);
    }
  }

  lemma {:induction false} FirstOfRank(group: seq<RawFinding>, k: nat)
    requires k < |group|
    requires forall i :: 0 <= i < k ==> RankOf(group[i]) != RankOf(group[k])
    ensures var r := OfRank(group, RankOf(group[k])); r != [] && r[0] == group[k]
  {
    var n := |group| - 1;
    if k < n {
      FirstOfRank(group[..n], k);
    } else {
      NoneOfRank(group[..n], RankOf(group[k]));
    }
  }

  lemma HeadIsMostSevere(group: seq<RawFinding>, sorted: seq<RawFinding>, top: RawFinding)
    requires multiset(sorted) == multiset(group) && Descending(sorted) && top in group
    requires forall i :: 0 <= i < |group| ==> RankOf(group[i]) <= RankOf(top)
    ensures sorted != [] && RankOf(sorted[0]) == RankOf(top)
  {
    assert top in multiset(sorted);
    var j :| 0 <= j < |sorted| && sorted[j] == top;
    assert sorted[0] in multiset(group);
    var i :| 0 <= i < |group| && group[i] == sorted[0];
  }

  /** The first sorted finding is the first of the most severe ones. */
  lemma MasterIsFirstMostSevere(group: seq<RawFinding>, k: nat)
    requires k < |group|
    requires forall i :: 0 <= i < |group| ==> RankOf(group[i]) <= RankOf(group[k])
    requires forall i :: 0 <= i < k ==> RankOf(group[i]) < RankOf(group[k])
    ensures BySeverity(group)[0] == group[k]
  {
    SortKeeps(group);
    SortOrders(group);
    HeadIsMostSevere(group, BySeverity(group), group[k]);
    SortIsStable(group, RankOf(group[k]));
    FirstOfRank(group, k);
    FirstOfRank(BySeverity(group), 0);
  }

  // ------------------------------------------------------------- deduplication

  datatype Deduplicated = Deduplicated(
    master: RawFinding, fingerprint: string, occurrenceCount: nat, occurrences: seq<RawFinding>)

  /** One result per group: every occurrence, most severe first, and the first of them as its master. */
  predicate IsCollapseOf(d: Deduplicated, fp: string, group: seq<RawFinding>) {
    && d.fingerprint == fp && d.occurrences == BySeverity(group) && d.occurrenceCount == |d.occurrences|
    && d.occurrences != [] && d.master == d.occurrences[0]
  }

  method Collapse(fp: string, group: seq<RawFinding>) returns (d: Deduplicated)
    requires group != []
    ensures IsCollapseOf(d, fp, group)
  {
    var sorted := BySeverity(group);
    d := Deduplicated(sorted[0], fp, |sorted|, sorted);
  }

  ghost predicate GroupsOf(
      fingerprint: RawFinding -> string, findings: seq<RawFinding>, keys: seq<string>, groups: map<string, seq<RawFinding>>)
  {
    && keys == Keys(fingerprint, findings)
    && (forall fp :: fp in groups <==> fp in keys)
    && forall fp :: fp in groups ==> groups[fp] == Group(fingerprint, findings, fp)
  }

  /** The group map behind one more finding. */
  function Regroup(groups: map<string, seq<RawFinding>>, fp: string, f: RawFinding): map<string, seq<RawFinding>> {
    groups[fp := if fp in groups then groups[fp] + [f] else [f]]
  }

  lemma GroupOneMore(
      fingerprint: RawFinding -> string, before: seq<RawFinding>, f: RawFinding, all: seq<RawFinding>,
      keys: seq<string>, groups: map<string, seq<RawFinding>>)
    requires GroupsOf(fingerprint, before, keys, groups) && all == before + [f]
    ensures var fp := fingerprint(f);
            GroupsOf(fingerprint, all, if fp in groups then keys else keys + [fp], Regroup(groups, fp, f))
  {
    assert all[..|before|] == before;
  }

  method GroupFindings(fingerprint: RawFinding -> string, findings: seq<RawFinding>)
    returns (keys: seq<string>, groups: map<string, seq<RawFinding>>)
    ensures GroupsOf(fingerprint, findings, keys, groups)
  {
    keys, groups := [], map[];
    for i := 0 to |findings|
      invariant GroupsOf(fingerprint, findings[..i], keys, groups)
    {
      var f := findings[i];
      var fp := fingerprint(f);
      GroupOneMore(fingerprint, findings[..i], f, findings[..i + 1], keys, groups);
      if fp !in groups { keys := keys + [fp]; }
      groups := Regroup(groups, fp, f);
    }
    assert findings[..|findings|] == findings;
  }

  predicate AllHeld(keys: seq<string>, groups: map<string, seq<RawFinding>>) {
    forall i :: 0 <= i < |keys| ==> keys[i] in groups && groups[keys[i]] != []
  }

  method CollapseAll(keys: seq<string>, groups: map<string, seq<RawFinding>>) returns (result: seq<Deduplicated>)
    requires AllHeld(keys, groups)
    ensures |result| == |keys|
    ensures forall i :: 0 <= i < |keys| ==> IsCollapseOf(result[i], keys[i], groups[keys[i]])
  {
    result := [];
    for i := 0 to |keys|
      invariant |result| == i
      invariant forall k :: 0 <= k < i ==> IsCollapseOf(result[k], keys[k], groups[keys[k]])
    {
      var d := Collapse(keys[i], groups[keys[i]]);
      result := result + [d];
    }
  }

  /** Results come in the order fingerprints were first seen, each the collapse of its group. */
  method Deduplicate(hash: string -> string, findings: seq<RawFinding>) returns (result: seq<Deduplicated>)
    ensures var keys := Keys(FingerprintBy(hash), findings);
            && |result| == |keys|
            && forall i :: 0 <= i < |keys| ==>
                 IsCollapseOf(result[i], keys[i], Group(FingerprintBy(hash), findings, keys[i]))
  {
    if findings == [] { return []; }
    var keys, groups := GroupFindings(FingerprintBy(hash), findings);
    result := CollapseAll(keys, groups);
  }

  /** How many findings the groups of some keys hold. */
  function Held(fingerprint: RawFinding -> string, findings: seq<RawFinding>, keys: seq<string>): nat {
    if keys == [] then 0
    else Held(fingerprint, findings, keys[..|keys| - 1]) + |Group(fingerprint, findings, keys[|keys| - 1])|
  }

  lemma {:induction false} HeldOneMore(fingerprint: RawFinding -> string, before: seq<RawFinding>, f: RawFinding, keys: seq<string>)
    requires forall i, j :: 0 <= i < j < |keys| ==> keys[i] != keys[j]
    ensures Held(fingerprint, before + [f], keys) ==
            Held(fingerprint, before, keys) + if fingerprint(f) in keys then 1 else 0
  {
    if keys != [] {
      assert (before + [f])[..|before|] == before;
      HeldOneMore(fingerprint, before, f, keys[..|keys| - 1]);
      assert keys == keys[..|keys| - 1] + [keys[|keys| - 1]];
    }
  }

  /** No finding is lost or counted twice: the occurrence counts add up to the number of findings. */
  lemma {:induction false} CountsAddUp(fingerprint: RawFinding -> string, findings: seq<RawFinding>)
    ensures Held(fingerprint, findings, Keys(fingerprint, findings)) == |findings|
  {
    if findings != [] {
      CountsAddUp(fingerprint, findings[..|findings| - 1]);
      KeysOneMore(fingerprint, findings[..|findings| - 1], findings[|findings| - 1], findings);
    }
  }

  lemma KeysOneMore(fingerprint: RawFinding -> string, before: seq<RawFinding>, f: RawFinding, all: seq<RawFinding>)
    requires all == before + [f]
    ensures Held(fingerprint, all, Keys(fingerprint, all)) == Held(fingerprint, before, Keys(fingerprint, before)) + 1
  {
    var keys, fp := Keys(fingerprint, before), fingerprint(f);
    assert all[..|before|] == before;
    HeldOneMore(fingerprint, before, f, keys);
    if fp !in keys {
      assert (keys + [fp])[..|keys|] == keys;
      assert Group(fingerprint, before, fp) == [];
      assert Group(fingerprint, all, fp) == [f];
    }
  }

  /** A result counts its whole group, its occurrences are the group's findings, and its master is the first most severe. */
  lemma CollapseKeepsGroup(d: Deduplicated, fp: string, group: seq<RawFinding>, k: nat)
    requires IsCollapseOf(d, fp, group) && k < |group|
    requires forall i :: 0 <= i < |group| ==> RankOf(group[i]) <= RankOf(group[k])
    requires forall i :: 0 <= i < k ==> RankOf(group[i]) < RankOf(group[k])
    ensures d.occurrenceCount == |group| && multiset(d.occurrences) == multiset(group) && d.master == group[k]
  {
    SortKeeps(group);
    MasterIsFirstMostSevere(group, k);
  }
}
