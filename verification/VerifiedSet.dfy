/** The addresses recorded when a target was verified, and the checks made against them. */
module VerifiedSet {
  import opened Options
  import opened Text
  import opened Address
  import opened Blocklist

  /** The canonical name of the address a spelling leads to, also when that address is refused. */
  function Canonicalise(ip: string): Option<string> {
    ClassifyAddress(ip).normalised
  }

  lemma CanonicalisesByAddress(ip: string)
    ensures Canonicalise(ip) ==
            match Resolve(ip)
            case None => None
            case Some(r) => Some(Name(r))
  {
    ClassifiedByAddressReached(ip);
  }

  /** A bare address or a single-host block, by the canonical name of its address. */
  function ParseEntry(entry: string): Option<string> {
    var value := Trim(entry);
    if value == "" then None
    else
      var slash := LastIndexOf(value, '/');
      if slash == -1 then Canonicalise(value)
      else
        var prefix := value[slash + 1..];
        if !IsPrefixLength(prefix) then None
        else
          match Canonicalise(value[..slash])
          case None => None
          case Some(name) =>
            if NumeralValue(prefix, 10) == (if '.' in name then 32 else 128) then Some(name) else None
  }

  datatype SetVerdict =
    | Within
    | EmptySet
    | MalformedAddress
    | MalformedMember(entry: string)
    | NotWithin(candidate: string)

  /** The first entry that is the candidate, or that does not parse, decides. */
  function Search(parse: string -> Option<string>, candidate: string, entries: seq<string>): SetVerdict {
    if entries == [] then NotWithin(candidate)
    else
      match parse(entries[0])
      case None => MalformedMember(entries[0])
      case Some(name) => if name == candidate then Within else Search(parse, candidate, entries[1..])
  }

  function IsWithinVerifiedSet(ip: string, entries: seq<string>): SetVerdict {
    if entries == [] then EmptySet
    else
      match Canonicalise(ip)
      case None => MalformedAddress
      case Some(candidate) => Search(ParseEntry, candidate, entries)
  }

  /** The i-th entry is the candidate, and every entry before it parses. */
  predicate FoundAt(parse: string -> Option<string>, candidate: string, entries: seq<string>, i: int) {
    && 0 <= i < |entries| && parse(entries[i]) == Some(candidate)
    && forall j :: 0 <= j < i ==> parse(entries[j]).Some?
  }

  lemma {:induction false} SearchFinds(parse: string -> Option<string>, candidate: string, entries: seq<string>)
    ensures Search(parse, candidate, entries).Within? <==> exists i :: FoundAt(parse, candidate, entries, i)
  {
    if entries != [] {
      var rest := entries[1..];
      SearchFinds(parse, candidate, rest);
      forall i | FoundAt(parse, candidate, rest, i) && parse(entries[0]).Some?
        ensures FoundAt(parse, candidate, entries, i + 1)
      {
        forall j | 0 <= j < i + 1 ensures parse(entries[j]).Some? {
          assert j > 0 ==> entries[j] == rest[j - 1];
        }
      }
      forall i | FoundAt(parse, candidate, entries, i) && i > 0 ensures FoundAt(parse, candidate, rest, i - 1) {
        forall j | 0 <= j < i - 1 ensures parse(rest[j]).Some? {
          assert rest[j] == entries[j + 1];
        }
      }
      if parse(entries[0]) == Some(candidate) {
        assert FoundAt(parse, candidate, entries, 0);
      }
    }
  }

  /** Over any stored set, malformed entries included: admitted exactly when an entry names the address and all before it parse. */
  lemma WithinExactly(ip: string, entries: seq<string>)
    ensures IsWithinVerifiedSet(ip, entries).Within? <==>
            Canonicalise(ip).Some? && exists i :: FoundAt(ParseEntry, Canonicalise(ip).value, entries, i)
  {
    if Canonicalise(ip).Some? {
      SearchFinds(ParseEntry, Canonicalise(ip).value, entries);
    }
  }

  // ------------------------------------------------------------- the stored form

  /** A single-host block, as it is stored. */
  function EntryOf(name: string): string {
    name + if '.' in name then "/32" else "/128"
  }

  function StoredEntry(ip: string): Option<string> {
    match Canonicalise(ip)
    case None => None
    case Some(name) => Some(EntryOf(name))
  }

  /** The distinct results of f, in first-seen order. */
  function Collect(f: string -> Option<string>, xs: seq<string>): (out: seq<string>)
    ensures forall i, j :: 0 <= i < j < |out| ==> out[i] != out[j]
  {
    if xs == [] then []
    else
      var before := Collect(f, xs[..|xs| - 1]);
      match f(xs[|xs| - 1])
      case None => before
      case Some(e) => if e in before then before else before + [e]
  }

  /** The stored form of a list of addresses: unparseable ones dropped, each address once. */
  function ToRanges(ips: seq<string>): seq<string> {
    Collect(StoredEntry, ips)
  }

  method ToVerifiedIpRanges(ips: seq<string>) returns (out: seq<string>)
    ensures out == ToRanges(ips)
  {
    out := [];
    for i := 0 to |ips|
      invariant out == ToRanges(ips[..i])
    {
      assert ips[..i + 1][..i] == ips[..i];
      var canonical := Canonicalise(ips[i]);
      if canonical.None? { continue; }
      if EntryOf(canonical.value) !in out {
        out := out + [EntryOf(canonical.value)];
      }
    }
    assert ips[..|ips|] == ips;
  }

  predicate IsHostSuffix(suffix: string, name: string) {
    suffix == if '.' in name then "32" else "128"
  }

  lemma SuffixReads(suffix: string, name: string)
    requires IsHostSuffix(suffix, name)
    ensures IsPrefixLength(suffix) && NumeralValue(suffix, 10) == (if '.' in name then 32 else 128)
  {
    PrefixReads(32);
    PrefixReads(128);
    assert Numeral(32, 10) == "32";
    assert Numeral(12, 10) == "12";
    assert Numeral(128, 10) == "128";
  }

  lemma EntryShape(name: string) returns (suffix: string)
    ensures EntryOf(name) == name + "/" + suffix && IsHostSuffix(suffix, name)
  {
    suffix := if '.' in name then "32" else "128";
  }

  lemma EntryParts(name: string)
    requires IsAddressText(name)
    ensures var v := EntryOf(name);
            && Trim(v) == v && LastIndexOf(v, '/') == |name| && v[..|name|] == name
            && IsPrefixLength(v[|name| + 1..])
            && NumeralValue(v[|name| + 1..], 10) == (if '.' in name then 32 else 128)
  {
    var suffix := EntryShape(name);
    SuffixReads(suffix, name);
    PartsOfCidrText(name, suffix);
    var v := name + "/" + suffix;
    assert v[|name| + 1..] == suffix && v[..|name|] == name;
    assert '/' !in suffix;
    LastIndexIs(v, '/', |name|);
  }

  lemma NameIsText(r: Reached)
    requires IsReached(r)
    ensures IsAddressText(Name(r)) && Canonicalise(Name(r)) == Some(Name(r))
  {
    NameIsTrim(r);
    NameResolves(r);
    CanonicalisesByAddress(Name(r));
  }

  lemma EntryReads(v: string, name: string)
    requires v != "" && Trim(v) == v && LastIndexOf(v, '/') == |name| && v[..|name|] == name
    requires IsPrefixLength(v[|name| + 1..]) && NumeralValue(v[|name| + 1..], 10) == (if '.' in name then 32 else 128)
    requires Canonicalise(name) == Some(name)
    ensures ParseEntry(v) == Some(name)
  {
  }

  /** Storing an address and reading the entry back gives its canonical name. */
  lemma EntryRoundTrip(r: Reached)
    requires IsReached(r)
    ensures ParseEntry(EntryOf(Name(r))) == Some(Name(r))
  {
    NameIsText(r);
    EntryParts(Name(r));
    EntryReads(EntryOf(Name(r)), Name(r));
  }

  lemma NamesDiffer(a: Reached, b: Reached)
    requires IsReached(a) && IsReached(b) && Name(a) == Name(b)
    ensures a == b
  {
    NameResolves(a);
    NameResolves(b);
  }

  lemma {:induction false} CollectHolds(f: string -> Option<string>, xs: seq<string>, e: string)
    ensures e in Collect(f, xs) <==> exists x :: x in xs && f(x) == Some(e)
  {
    if xs != [] {
      var before, last := xs[..|xs| - 1], xs[|xs| - 1];
      CollectHolds(f, before, e);
      assert xs == before + [last];
    }
  }

  lemma RangesParse(ips: seq<string>, e: string) returns (r: Reached)
    requires e in ToRanges(ips)
    ensures IsReached(r) && e == EntryOf(Name(r)) && ParseEntry(e) == Some(Name(r)) && LedTo(ips, r)
  {
    CollectHolds(StoredEntry, ips, e);
    var s :| s in ips && StoredEntry(s) == Some(e);
    CanonicalisesByAddress(s);
    r := Resolve(s).value;
    EntryRoundTrip(r);
  }

  /** Whether some member of the list leads to the address. */
  predicate LedTo(ips: seq<string>, r: Reached) {
    exists s :: s in ips && Resolve(s) == Some(r)
  }

  lemma StoredWhenLedTo(ips: seq<string>, r: Reached)
    requires IsReached(r) && LedTo(ips, r)
    ensures EntryOf(Name(r)) in ToRanges(ips) && ParseEntry(EntryOf(Name(r))) == Some(Name(r))
  {
    var s :| s in ips && Resolve(s) == Some(r);
    CanonicalisesByAddress(s);
    CollectHolds(StoredEntry, ips, EntryOf(Name(r)));
    EntryRoundTrip(r);
  }

  lemma FoundWhenAllParse(parse: string -> Option<string>, candidate: string, entries: seq<string>, e: string)
    requires e in entries && parse(e) == Some(candidate) && forall e :: e in entries ==> parse(e).Some?
    ensures exists i :: FoundAt(parse, candidate, entries, i)
  {
    var i :| 0 <= i < |entries| && entries[i] == e;
    assert FoundAt(parse, candidate, entries, i);
  }

  lemma SearchStored(ips: seq<string>, r: Reached)
    requires IsReached(r)
    ensures Search(ParseEntry, Name(r), ToRanges(ips)).Within? <==> LedTo(ips, r)
  {
    var entries := ToRanges(ips);
    SearchFinds(ParseEntry, Name(r), entries);
    forall e | e in entries ensures ParseEntry(e).Some? && (ParseEntry(e) == Some(Name(r)) ==> LedTo(ips, r)) {
      var q := RangesParse(ips, e);
      if Name(q) == Name(r) {
        NamesDiffer(q, r);
      }
    }
    if LedTo(ips, r) {
      StoredWhenLedTo(ips, r);
      FoundWhenAllParse(ParseEntry, Name(r), entries, EntryOf(Name(r)));
    }
  }

  /** The stored set admits an address exactly when its number is that of some member it was made from. */
  lemma StoredSetAdmitsItsMembers(ip: string, ips: seq<string>)
    ensures IsWithinVerifiedSet(ip, ToRanges(ips)).Within? <==>
            ToAddressNumber(ip).Some? && exists s :: s in ips && ToAddressNumber(s) == ToAddressNumber(ip)
  {
    CanonicalisesByAddress(ip);
    NumberOfAddressReached(ip);
    if Resolve(ip).Some? {
      var r := Resolve(ip).value;
      SearchStored(ips, r);
      assert ToRanges(ips) == [] ==> !Search(ParseEntry, Name(r), ToRanges(ips)).Within?;
      forall s | s in ips ensures ToAddressNumber(s) == ToAddressNumber(ip) <==> Resolve(s) == Some(r) {
        NumberOfAddressReached(s);
        if ToAddressNumber(s) == ToAddressNumber(ip) {
          NumberIsInjective(Resolve(s).value, r);
        }
      }
    }
  }

  // ------------------------------------------------ one verdict from both lists

  lemma {:induction false} FirstCoveredAppend(m: Matcher, a: seq<Number>, b: seq<Number>)
    ensures FirstCovered(m, a + b) == if FirstCovered(m, a).Some? then FirstCovered(m, a) else FirstCovered(m, b)
  {
    if a == [] {
      assert a + b == b;
    } else {
      assert (a + b)[1..] == a[1..] + b;
      FirstCoveredAppend(m, a[1..], b);
    }
  }

  /** Repeating a number changes no hit. */
  lemma RepeatedNumber(m: Matcher, a: seq<Number>, n: Number)
    requires n in a
    ensures FirstCovered(m, a + [n]) == FirstCovered(m, a)
  {
    FirstCoveredAppend(m, a, [n]);
    assert FirstCovered(m, [n]).Some? ==> Covers(m, n);
  }

  lemma EndsWithItself(a: string, b: string)
    ensures EndsWith(a + b, b) && (a + b)[..|a|] == a
  {
  }

  lemma StripsEntry(name: string)
    requires IsAddressText(name)
    ensures StripSingleHostPrefix(EntryOf(name)) == name
  {
    EntryParts(name);
    var v := EntryOf(name);
    if '.' in name {
      EndsWithItself(name, "/32");
    } else {
      EndsWithItself(name, "/128");
      assert v[|v| - 1] == '8';
    }
  }

  lemma EntryNumber(r: Reached)
    requires IsReached(r)
    ensures NumberFrom(EntryOf(Name(r))) == Some(NumberOf(r))
  {
    NameIsText(r);
    StripsEntry(Name(r));
    NameResolves(r);
    NumberOfAddressReached(Name(r));
  }

  /** Text that no single-host prefix is stripped from, as resolved addresses are. */
  predicate Unsuffixed(ip: string) {
    StripSingleHostPrefix(ip) == Trim(ip)
  }

  lemma PlainNumber(ip: string)
    requires Unsuffixed(ip)
    ensures NumberFrom(ip) == ToAddressNumber(ip)
  {
    NumberOfAddressReached(ip);
    NumberOfAddressReached(Trim(ip));
    TrimmedStays(Trim(ip));
  }

  lemma {:induction false} GatherHolds<T, U>(f: T -> Option<U>, xs: seq<T>, x: T, u: U)
    requires x in xs && f(x) == Some(u)
    ensures u in Gather(f, xs)
  {
    var before := xs[..|xs| - 1];
    if x in before {
      GatherHolds(f, before, x, u);
    }
  }

  lemma GatherAppend<T, U>(f: T -> Option<U>, xs: seq<T>, x: T)
    ensures Gather(f, xs + [x]) == Gather(f, xs) + match f(x) case Some(u) => [u] case None => []
  {
    assert (xs + [x])[..|xs|] == xs;
  }

  /** The stored form has the number of its origin, if it has one. */
  predicate KeepsNumber(store: string -> Option<string>, number: string -> Option<Number>, s: string) {
    if store(s).Some? then number(s).Some? && number(store(s).value) == number(s) else number(s).None?
  }

  predicate SameHits(m: Matcher, kept: seq<Number>, all: seq<Number>) {
    FirstCovered(m, kept) == FirstCovered(m, all) && forall n :: n in kept ==> n in all
  }

  lemma SameHitsStep(m: Matcher, kept: seq<Number>, all: seq<Number>, n: Number)
    requires SameHits(m, kept, all)
    ensures SameHits(m, kept + [n], all + [n])
    ensures n in kept ==> SameHits(m, kept, all + [n])
  {
    FirstCoveredAppend(m, kept, [n]);
    FirstCoveredAppend(m, all, [n]);
    if n in kept {
      RepeatedNumber(m, all, n);
    }
  }

  lemma StoreOneMore(
      store: string -> Option<string>, number: string -> Option<Number>, before: seq<string>, ip: string, m: Matcher)
    requires KeepsNumber(store, number, ip)
    requires SameHits(m, Gather(number, Collect(store, before)), Gather(number, before))
    ensures SameHits(m, Gather(number, Collect(store, before + [ip])), Gather(number, before + [ip]))
  {
    assert (before + [ip])[..|before|] == before;
    if store(ip).None? {
      assert Gather(number, before + [ip]) == Gather(number, before);
    } else {
      var e, n := store(ip).value, number(ip).value;
      SameHitsStep(m, Gather(number, Collect(store, before)), Gather(number, before), n);
      if e in Collect(store, before) {
        GatherHolds(number, Collect(store, before), e, n);
      } else {
        GatherAppend(number, Collect(store, before), e);
      }
    }
  }

  /** Collecting the stored forms keeps the first hit of every matcher. */
  lemma {:induction false} StoredSameHits(
      store: string -> Option<string>, number: string -> Option<Number>, ips: seq<string>, m: Matcher)
    requires forall i :: 0 <= i < |ips| ==> KeepsNumber(store, number, ips[i])
    ensures SameHits(m, Gather(number, Collect(store, ips)), Gather(number, ips))
  {
    if ips != [] {
      var before, ip := ips[..|ips| - 1], ips[|ips| - 1];
      assert ips == before + [ip];
      StoredSameHits(store, number, before, m);
      StoreOneMore(store, number, before, ip, m);
    }
  }

  lemma StoredKeepsNumber(ip: string)
    requires Unsuffixed(ip)
    ensures KeepsNumber(StoredEntry, NumberFrom, ip)
  {
    CanonicalisesByAddress(ip);
    NumberOfAddressReached(ip);
    PlainNumber(ip);
    if Resolve(ip).Some? {
      EntryNumber(Resolve(ip).value);
    }
  }

  lemma {:induction false} SameHitsSameMatch(host: Option<string>, a: seq<Number>, b: seq<Number>, entries: seq<Entry>)
    requires forall m :: FirstCovered(m, a) == FirstCovered(m, b)
    ensures FirstMatch(host, a, entries) == FirstMatch(host, b, entries)
  {
    if entries != [] {
      SameHitsSameMatch(host, a, b, entries[1..]);
    }
  }

  /**
   * The check made when a scan starts, over the stored set, gives the verdict,
   * entry and match of the check made over the addresses themselves.
   */
  lemma StoredSetBlocksTheSame(hostname: Option<string>, ips: seq<string>, entries: seq<Entry>)
    requires forall s :: s in ips ==> Unsuffixed(s)
    ensures MatchBlocklist(hostname, ToRanges(ips), entries) == MatchBlocklist(hostname, ips, entries)
  {
    forall i | 0 <= i < |ips| ensures KeepsNumber(StoredEntry, NumberFrom, ips[i]) {
      StoredKeepsNumber(ips[i]);
    }
    forall m ensures FirstCovered(m, NumbersIn(ToRanges(ips))) == FirstCovered(m, NumbersIn(ips)) {
      StoredSameHits(StoredEntry, NumberFrom, ips, m);
    }
    var host := if hostname.Some? then NormaliseHostname(hostname.value) else None;
    SameHitsSameMatch(host, NumbersIn(ToRanges(ips)), NumbersIn(ips), entries);
  }

  lemma UnsuffixedWhenSlashFree(ip: string)
    requires '/' !in ip
    ensures Unsuffixed(ip)
  {
    TrimIsInside(ip);
    var s := Trim(ip);
    forall suffix: string | suffix != "" && suffix[0] == '/' ensures !EndsWith(s, suffix) {
      if |suffix| <= |s| {
        assert s[|s| - |suffix|..][0] == s[|s| - |suffix|];
      }
    }
    assert "/32"[0] == '/' && "/128"[0] == '/';
  }

  lemma TrimIsInside(s: string)
    ensures forall c :: c in Trim(s) ==> c in s
  {
    StartIsInside(s);
    EndIsInside(TrimStart(s));
  }

  lemma {:induction false} StartIsInside(s: string)
    ensures forall c :: c in TrimStart(s) ==> c in s
  {
    if s != "" {
      StartIsInside(s[1..]);
    }
  }

  lemma {:induction false} EndIsInside(s: string)
    ensures forall c :: c in TrimEnd(s) ==> c in s
  {
    if s != "" {
      EndIsInside(s[..|s| - 1]);
    }
  }
}
