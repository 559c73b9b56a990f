/** The request limiter. A call is given the clock's reading in milliseconds. */
module RateLimit {

  /** The limiter's state as a value. */
  datatype Bucket = Bucket(rate: real, burst: real, tokens: real, last: int) {
    predicate Valid() {
      rate > 0.0 && 0.0 <= tokens <= burst
    }
  }

  /** What `ms` milliseconds add. */
  function Gain(rate: real, ms: int): real {
    ms as real / 1000.0 * rate
  }

  function Min(a: real, b: real): real {
    if a <= b then a else b
  }

  function Refilled(b: Bucket, now: int): Bucket {
    b.(tokens := Min(b.burst, b.tokens + Gain(b.rate, now - b.last)), last := now)
  }

  /** Whether a token can be taken. */
  predicate Allows(b: Bucket, now: int) {
    Refilled(b, now).tokens >= 1.0
  }

  function AfterRemove(b: Bucket, now: int): Bucket {
    var r := Refilled(b, now);
    if Allows(b, now) then r.(tokens := r.tokens - 1.0) else r
  }

  function Ceil(x: real): int {
    -((-x).Floor)
  }

  function Wait(b: Bucket, now: int): int
    requires b.rate > 0.0
  {
    var r := Refilled(b, now);
    if r.tokens >= 1.0 then 0 else Ceil((1.0 - r.tokens) / b.rate * 1000.0)
  }

  class TokenBucket {
    const ratePerSecond: real
    const burst: real
    var tokens: real
    var last: int

    constructor (ratePerSecond: real, burst: real, now: int)
      ensures State() == Bucket(ratePerSecond, burst, burst, now)
    {
      this.ratePerSecond := ratePerSecond;
      this.burst := burst;
      tokens := burst;
      last := now;
    }

    function State(): Bucket
      reads this
    {
      Bucket(ratePerSecond, burst, tokens, last)
    }

    /**
     * Takes a token exactly when a whole one is there, gained tokens counted and those
     * above the burst lost; what is not taken is left. On a clock that does not go back, tokens are
     * conserved: the one taken and those left were there before or were gained since.
     */
    method TryRemove(now: int) returns (ok: bool)
      modifies this
      ensures ok <==> Allows(old(State()), now)
      ensures var full := old(tokens) + (now - old(last)) as real / 1000.0 * ratePerSecond;
              && (ok <==> full >= 1.0 && burst >= 1.0)
              && tokens + (if ok then 1.0 else 0.0) == (if full <= burst then full else burst)
              && last == now
      ensures State() == AfterRemove(old(State()), now)
      ensures old(State()).Valid() && old(last) <= now ==>
        State().Valid() && (if ok then 1.0 else 0.0) + tokens <= old(tokens) + Gain(ratePerSecond, now - old(last))
    {
      ghost var before := State();
      if before.Valid() && before.last <= now {
        GainGrows(before.rate, now - before.last);
      }
      Refill(now);
      if tokens < 1.0 { return false; }
      tokens := tokens - 1.0;
      return true;
    }

    /**
     * How long a caller should wait before TryRemove can succeed; 0 when it can
     * now. With a burst of at least one and no call in between, TryRemove succeeds
     * at a later time exactly when the wait is over.
     */
    method MsUntilAvailable(now: int) returns (ms: int)
      requires ratePerSecond > 0.0
      modifies this
      ensures State() == Refilled(old(State()), now)
      ensures old(State()).Valid() && burst >= 1.0 && old(last) <= now ==>
        ms >= 0 && forall later :: now <= later ==> (Allows(State(), later) <==> later >= now + ms)
    {
      ghost var before := State();
      Refill(now);
      ms := if tokens >= 1.0 then 0 else Ceil((1.0 - tokens) / ratePerSecond * 1000.0);
      if before.Valid() && burst >= 1.0 && before.last <= now {
        WaitIsNotNegative(before, now);
        forall later | now <= later ensures Allows(State(), later) <==> later >= now + ms {
          WaitIsExact(before, now, later);
        }
      }
    }

    method Refill(now: int)
      modifies this
      ensures State() == Refilled(old(State()), now)
    {
      var elapsed := (now - last) as real / 1000.0;
      tokens := Min(burst, tokens + elapsed * ratePerSecond);
      last := now;
    }
  }

  // ---------------------------------------------------------------- the window

  datatype Call = TryRemove(now: int) | MsUntilAvailable(now: int)

  function After(b: Bucket, c: Call): Bucket {
    if c.TryRemove? then AfterRemove(b, c.now) else Refilled(b, c.now)
  }

  /** The state after a sequence of calls. */
  function AfterAll(b: Bucket, calls: seq<Call>): Bucket
    decreases |calls|
  {
    if calls == [] then b else AfterAll(After(b, calls[0]), calls[1..])
  }

  /** How many of the calls took a token. */
  function Taken(b: Bucket, calls: seq<Call>): nat
    decreases |calls|
  {
    if calls == [] then 0
    else (if calls[0].TryRemove? && Allows(b, calls[0].now) then 1 else 0) + Taken(After(b, calls[0]), calls[1..])
  }

  /** The clock never goes back. */
  predicate Monotone(since: int, calls: seq<Call>) {
    && (forall i :: 0 <= i < |calls| ==> since <= calls[i].now)
    && forall i, j :: 0 <= i < j < |calls| ==> calls[i].now <= calls[j].now
  }

  lemma GainAdds(rate: real, a: int, b: int)
    ensures Gain(rate, a) + Gain(rate, b) == Gain(rate, a + b)
  {
    assert (a + b) as real == a as real + b as real;
    var x, y := a as real / 1000.0, b as real / 1000.0;
    assert x * rate + y * rate == (x + y) * rate;
  }

  lemma GainGrows(rate: real, ms: int)
    requires rate > 0.0 && ms >= 0
    ensures Gain(rate, ms) >= 0.0
  {
    assert ms as real / 1000.0 >= 0.0;
  }

  lemma StaysValid(b: Bucket, c: Call)
    requires b.Valid() && b.last <= c.now
    ensures After(b, c).Valid() && After(b, c).last == c.now && After(b, c).burst == b.burst && After(b, c).rate == b.rate
  {
    GainGrows(b.rate, c.now - b.last);
  }

  /** Tokens are conserved: what was taken and what is left never exceed what was there and what was gained. */
  lemma {:induction false} Conserved(b: Bucket, calls: seq<Call>)
    requires b.Valid() && Monotone(b.last, calls)
    ensures var end := AfterAll(b, calls);
            && end.Valid() && end.last >= b.last && end.burst == b.burst && end.rate == b.rate
            && Taken(b, calls) as real + end.tokens <= b.tokens + Gain(b.rate, end.last - b.last)
            && (calls != [] ==> end.last == calls[|calls| - 1].now)
    decreases |calls|
  {
    if calls != [] {
      var next := After(b, calls[0]);
      StaysValid(b, calls[0]);
      Conserved(next, calls[1..]);
      GainAdds(b.rate, calls[0].now - b.last, AfterAll(b, calls).last - calls[0].now);
    }
  }

  /** A first call at some time acts as if the refill had already happened then. */
  lemma RefilledBefore(b: Bucket, calls: seq<Call>)
    requires b.Valid() && calls != [] && b.last <= calls[0].now
    ensures var r := Refilled(b, calls[0].now);
            Taken(r, calls) == Taken(b, calls) && AfterAll(r, calls) == AfterAll(b, calls)
  {
    var c, r := calls[0], Refilled(b, calls[0].now);
    assert Gain(r.rate, 0) == 0.0;
    assert Refilled(r, c.now) == r;
    assert After(r, c) == After(b, c);
  }

  lemma MonotoneParts(since: int, calls: seq<Call>, i: nat, j: nat)
    requires Monotone(since, calls) && i < j <= |calls|
    ensures Monotone(since, calls[..i])
    ensures Monotone(if i == 0 then since else calls[i - 1].now, calls[i..j])
  {
  }

  lemma FromHere(start: Bucket, window: seq<Call>, ms: int)
    requires start.Valid() && window != [] && Monotone(start.last, window)
    requires ms == window[|window| - 1].now - window[0].now
    ensures Taken(start, window) as real <= start.burst + Gain(start.rate, ms)
  {
    RefilledBefore(start, window);
    GainGrows(start.rate, window[0].now - start.last);
    Conserved(Refilled(start, window[0].now), window);
  }

  lemma StateBehind(b: Bucket, calls: seq<Call>)
    requires b.Valid() && Monotone(b.last, calls)
    ensures var end := AfterAll(b, calls);
            && end.Valid() && end.burst == b.burst && end.rate == b.rate
            && end.last == if calls == [] then b.last else calls[|calls| - 1].now
  {
    Conserved(b, calls);
  }

  /** In any window of any sequence of calls, at most burst + rate * T calls take a token. */
  lemma WindowBound(b: Bucket, calls: seq<Call>, i: nat, j: nat)
    requires b.Valid() && Monotone(b.last, calls) && i < j <= |calls|
    ensures Taken(AfterAll(b, calls[..i]), calls[i..j]) as real
            <= b.burst + Gain(b.rate, calls[j - 1].now - calls[i].now)
  {
    MonotoneParts(b.last, calls, i, j);
    StateBehind(b, calls[..i]);
    FromHere(AfterAll(b, calls[..i]), calls[i..j], calls[j - 1].now - calls[i].now);
  }

  // ------------------------------------------------------------------- waiting

  lemma CeilIsLeast(x: real, n: int)
    ensures n as real >= x <==> n >= Ceil(x)
  {
    var f := (-x).Floor;
    assert f as real <= -x < f as real + 1.0;
    if n >= -f {
      assert n as real >= -(f as real);
    } else {
      assert n <= -f - 1;
      assert n as real <= -(f as real) - 1.0;
    }
  }

  lemma EnoughTime(missing: real, rate: real, ms: int)
    requires rate > 0.0
    ensures Gain(rate, ms) >= missing <==> ms as real >= missing / rate * 1000.0
  {
    var x, q := ms as real / 1000.0, missing / rate;
    assert q * rate == missing;
    if x >= q {
      assert (x - q) * rate >= 0.0;
    } else {
      assert (q - x) * rate > 0.0;
    }
    assert x * rate - q * rate == (x - q) * rate;
  }

  lemma WaitIsNotNegative(b: Bucket, now: int)
    requires b.rate > 0.0
    ensures Wait(b, now) >= 0
  {
    var missing := 1.0 - Refilled(b, now).tokens;
    if missing > 0.0 {
      assert missing / b.rate > 0.0;
      CeilIsLeast(missing / b.rate * 1000.0, -1);
    }
  }

  /** The wait is exact: with no other caller, a token can be taken at a later time exactly when the wait is over. */
  lemma WaitIsExact(b: Bucket, now: int, later: int)
    requires b.Valid() && b.burst >= 1.0 && b.last <= now <= later
    ensures Allows(Refilled(b, now), later) <==> later >= now + Wait(b, now)
  {
    var r := Refilled(b, now);
    GainGrows(b.rate, later - now);
    if r.tokens < 1.0 {
      EnoughTime(1.0 - r.tokens, b.rate, later - now);
      CeilIsLeast((1.0 - r.tokens) / b.rate * 1000.0, later - now);
    }
  }

  /** A burst below one never allows a call. */
  lemma SmallBurstNeverAllows(b: Bucket, now: int)
    requires b.burst < 1.0
    ensures !Allows(b, now)
  {
  }
}
