/**
 * One request budget and several senders that each keep a count of their own.
 *
 * A run's crawl counts from what it read in the ledger when the run began. When
 * the crawl returns, the TLS and active probes count from a copy of its count,
 * while requests the browser left chained are still sent under the crawl's own;
 * and runs of one scan may overlap. No sender sees what another sends later, nor
 * requests that had no ledger row when it read the ledger.
 */
module SharedBudget {

  type Sender = nat

  /**
   * A sender begins by reading the ledger, or with a copy of another's count. It
   * counts a request before the guard decides; the request is then refused and
   * taken off the count, or sent and ledgered. A sender that stops between the
   * last two loses a row.
   */
  datatype Event =
    | Begin(sender: Sender)
    | Copy(sender: Sender, from: Sender)
    | Count(sender: Sender)
    | Refuse(sender: Sender)
    | Send(sender: Sender)
    | Record(sender: Sender)
    | Stop(sender: Sender)

  type Trace = seq<Event>

  function Before(t: Trace): Trace
    requires t != []
  {
    t[..|t| - 1]
  }

  function Last(t: Trace): Event
    requires t != []
  {
    t[|t| - 1]
  }

  /** All requests sent to the target. */
  function Sent(t: Trace): nat {
    if t == [] then 0 else Sent(Before(t)) + if Last(t).Send? then 1 else 0
  }

  /** The ledger rows a sender that begins would count. */
  function Recorded(t: Trace): nat {
    if t == [] then 0 else Recorded(Before(t)) + if Last(t).Record? then 1 else 0
  }

  predicate Starts(e: Event, j: Sender) {
    (e.Begin? || e.Copy?) && e.sender == j
  }

  predicate Begun(t: Trace, j: Sender) {
    t != [] && (Starts(Last(t), j) || Begun(Before(t), j))
  }

  predicate Live(t: Trace, j: Sender) {
    t != [] && (Starts(Last(t), j) || (Last(t) != Stop(j) && Live(Before(t), j)))
  }

  predicate HasSent(t: Trace, j: Sender) {
    t != [] && (Last(t) == Send(j) || HasSent(Before(t), j))
  }

  /** The senders with a request counted and not decided. */
  function Counted(t: Trace): set<Sender> {
    if t == [] then {}
    else
      match Last(t)
      case Count(j) => Counted(Before(t)) + {j}
      case Refuse(j) => Counted(Before(t)) - {j}
      case Send(j) => Counted(Before(t)) - {j}
      case _ => Counted(Before(t))
  }

  /** The senders with a request that has no ledger row, or never will. */
  function Unledgered(t: Trace): set<Sender> {
    if t == [] then {}
    else
      match Last(t)
      case Send(j) => Unledgered(Before(t)) + {j}
      case Record(j) => Unledgered(Before(t)) - {j}
      case _ => Unledgered(Before(t))
  }

  /** What a sender takes for the number of requests made. */
  function Counter(t: Trace, j: Sender): int {
    if t == [] then 0
    else
      match Last(t)
      case Begin(i) => if i == j then Recorded(Before(t)) else Counter(Before(t), j)
      case Copy(i, k) => Counter(Before(t), if i == j then k else j)
      case Count(i) => Counter(Before(t), j) + if i == j then 1 else 0
      case Refuse(i) => Counter(Before(t), j) - if i == j then 1 else 0
      case _ => Counter(Before(t), j)
  }

  /** The senders whose undecided request a sender counts: itself, and the one it copied from. */
  function Awaits(t: Trace, j: Sender): set<Sender> {
    if t == [] then {}
    else
      match Last(t)
      case Begin(i) => if i == j then {} else Awaits(Before(t), j)
      case Copy(i, k) => Awaits(Before(t), if i == j then k else j)
      case Count(i) => Awaits(Before(t), j) + if i == j then {j} else {}
      case Refuse(i) => Awaits(Before(t), j) - {i}
      case Send(i) => Awaits(Before(t), j) - {i}
      case _ => Awaits(Before(t), j)
  }

  /** The requests in a copied count that were refused after it was copied. */
  function Void(t: Trace, j: Sender): nat {
    if t == [] then 0
    else
      match Last(t)
      case Begin(i) => if i == j then 0 else Void(Before(t), j)
      case Copy(i, k) => Void(Before(t), if i == j then k else j)
      case Refuse(i) => Void(Before(t), j) + if i != j && i in Awaits(Before(t), j) then 1 else 0
      case _ => Void(Before(t), j)
  }

  /** The requests in a sender's count that were not sent: not decided yet, or refused since. */
  function Overcount(t: Trace, j: Sender): nat {
    |Awaits(t, j)| + Void(t, j)
  }

  /** The requests a sender does not know of: those without a row when it read the ledger, and those others sent since. */
  function Unseen(t: Trace, j: Sender): nat {
    if t == [] then 0
    else
      match Last(t)
      case Begin(i) => if i == j then |Unledgered(Before(t))| else Unseen(Before(t), j)
      case Copy(i, k) => Unseen(Before(t), if i == j then k else j)
      case Send(i) => Unseen(Before(t), j) + if i != j && i !in Awaits(Before(t), j) then 1 else 0
      case _ => Unseen(Before(t), j)
  }

  /** A sender begins once, has one request at a time, and sends only what its own count puts within the ceiling. */
  predicate Step(t: Trace, e: Event, max: int) {
    match e
    case Begin(j) => !Begun(t, j)
    case Copy(j, k) => !Begun(t, j) && Live(t, k)
    case Count(j) => Live(t, j) && j !in Counted(t) && j !in Unledgered(t)
    case Refuse(j) => Live(t, j) && j in Counted(t)
    case Send(j) => Live(t, j) && j in Counted(t) && j !in Unledgered(t) && Counter(t, j) <= max
    case Record(j) => Live(t, j) && j in Unledgered(t)
    case Stop(j) => Live(t, j)
  }

  predicate Legal(t: Trace, max: int) {
    t == [] || (Legal(Before(t), max) && Step(Before(t), Last(t), max))
  }

  lemma {:induction false} EveryRequestHasARow(t: Trace, max: int)
    requires Legal(t, max)
    ensures Sent(t) == Recorded(t) + |Unledgered(t)|
  {
    if t != [] {
      EveryRequestHasARow(Before(t), max);
    }
  }

  lemma {:induction false} LiveHasBegun(t: Trace, j: Sender)
    ensures Live(t, j) ==> Begun(t, j)
  {
    if t != [] {
      LiveHasBegun(Before(t), j);
    }
  }

  lemma {:induction false} OnlyBegunCount(t: Trace, max: int, j: Sender)
    requires Legal(t, max) && j in Counted(t)
    ensures Begun(t, j)
  {
    if Last(t) == Count(j) {
      LiveHasBegun(Before(t), j);
    } else {
      OnlyBegunCount(Before(t), max, j);
    }
  }

  /** What a sender awaits is undecided, and includes its own undecided request. */
  lemma {:induction false} AwaitsTheUndecided(t: Trace, max: int, j: Sender)
    requires Legal(t, max) && Begun(t, j)
    ensures Awaits(t, j) <= Counted(t) && (j in Counted(t) <==> j in Awaits(t, j))
  {
    var e := Last(t);
    if e.Copy? && e.sender == j {
      LiveHasBegun(Before(t), e.from);
      AwaitsTheUndecided(Before(t), max, e.from);
      NotCounted(Before(t), max, j);
    } else if e == Begin(j) {
      NotCounted(Before(t), max, j);
    } else {
      AwaitsTheUndecided(Before(t), max, j);
    }
  }

  lemma NotCounted(t: Trace, max: int, j: Sender)
    requires Legal(t, max) && !Begun(t, j)
    ensures j !in Counted(t)
  {
    if j in Counted(t) {
      OnlyBegunCount(t, max, j);
    }
  }

  /** Conservation: what a sender counts, less what was not sent of it, and what it does not see are all the requests there were. */
  lemma {:induction false} CountedAndUnseen(t: Trace, max: int, j: Sender)
    requires Legal(t, max) && Begun(t, j)
    ensures Sent(t) == Counter(t, j) - Overcount(t, j) + Unseen(t, j)
  {
    var e := Last(t);
    if e == Begin(j) {
      EveryRequestHasARow(Before(t), max);
    } else if e.Copy? && e.sender == j {
      LiveHasBegun(Before(t), e.from);
      CountedAndUnseen(Before(t), max, e.from);
    } else {
      CountedAndUnseen(Before(t), max, j);
      AwaitsTheUndecided(Before(t), max, j);
    }
  }

  /** A count equals the number of requests sent exactly when as many were sent unseen as were counted and not sent. */
  lemma CountIsExactly(t: Trace, max: int, j: Sender)
    requires Legal(t, max) && Begun(t, j)
    ensures Counter(t, j) == Sent(t) <==> Unseen(t, j) == Overcount(t, j)
  {
    CountedAndUnseen(t, max, j);
  }

  lemma {:induction false} SendersStayUnder(t: Trace, max: int, j: Sender)
    requires Legal(t, max) && HasSent(t, j)
    ensures Begun(t, j) && Counter(t, j) <= max + if j in Counted(t) then 1 else 0
  {
    if Last(t) == Send(j) {
      LiveHasBegun(Before(t), j);
    } else {
      SendersStayUnder(Before(t), max, j);
    }
  }

  /**
   * However senders overlap or break off: by any one that sent a request, the
   * total is at most the ceiling plus what that one did not see.
   */
  lemma TotalIsBounded(t: Trace, max: int, j: Sender)
    requires Legal(t, max) && HasSent(t, j)
    ensures Sent(t) <= max + Unseen(t, j)
  {
    SendersStayUnder(t, max, j);
    CountedAndUnseen(t, max, j);
    AwaitsTheUndecided(t, max, j);
    if j in Counted(t) {
      assert {j} <= Awaits(t, j);
      SubsetIsSmaller({j}, Awaits(t, j));
    }
  }

  lemma {:induction false} SubsetIsSmaller(a: set<Sender>, b: set<Sender>)
    requires a <= b
    ensures |a| <= |b|
  {
    if a != {} {
      var x :| x in a;
      SubsetIsSmaller(a - {x}, b - {x});
    }
  }

  /** The sender misses more than its own count leaves free, what it counts in vain included. */
  predicate MissesTooMuch(t: Trace, max: int, j: Sender) {
    Unseen(t, j) > max - Counter(t, j) + Overcount(t, j) - 1
  }

  /** Exactly when a request takes the total over the ceiling: when its sender misses too much. */
  lemma OverCeilingExactly(t: Trace, max: int, j: Sender)
    requires Legal(t, max) && Step(t, Send(j), max)
    ensures Sent(t + [Send(j)]) > max <==> MissesTooMuch(t, max, j)
  {
    LiveHasBegun(t, j);
    CountedAndUnseen(t, max, j);
    Extended(t, Send(j));
  }

  predicate SomeoneMissedTooMuch(t: Trace, max: int) {
    && t != []
    && (SomeoneMissedTooMuch(Before(t), max) || (Last(t).Send? && MissesTooMuch(Before(t), max, Last(t).sender)))
  }

  /** The ceiling was passed exactly when some request was sent by a sender that missed too much. */
  lemma {:induction false} PassedExactly(t: Trace, max: nat)
    requires Legal(t, max)
    ensures Sent(t) > max <==> SomeoneMissedTooMuch(t, max)
  {
    if t != [] {
      PassedExactly(Before(t), max);
      if Last(t).Send? {
        OverCeilingExactly(Before(t), max, Last(t).sender);
        assert t == Before(t) + [Last(t)];
      }
    }
  }

  // ------------------------------------------------------------- one after another

  predicate AnyBegun(t: Trace) {
    t != [] && (Last(t).Begin? || Last(t).Copy? || AnyBegun(Before(t)))
  }

  /** The sender that began last. */
  function Latest(t: Trace): (j: Sender)
    requires AnyBegun(t)
    ensures Begun(t, j)
  {
    if Last(t).Begin? || Last(t).Copy? then Last(t).sender else Latest(Before(t))
  }

  /** The senders of the run that is under way: its crawl, and beside it the sender that copied the crawl's count. */
  function Current(t: Trace): set<Sender> {
    if t == [] then {}
    else
      match Last(t)
      case Begin(j) => {j}
      case Copy(j, k) => {j, k}
      case _ => Current(Before(t))
  }

  /** Runs follow one another: each begins when every request has its row, copies its count once, and then sends alone. */
  predicate InTurn(t: Trace) {
    t == [] ||
    (&& InTurn(Before(t))
     && match Last(t)
        case Begin(_) => Unledgered(Before(t)) == {}
        case Copy(_, k) => Current(Before(t)) == {k}
        case Send(j) => j in Current(Before(t))
        case _ => true)
  }

  /** A sender's count was copied. */
  predicate CopiedFrom(t: Trace, j: Sender) {
    t != [] && ((Last(t).Copy? && Last(t).from == j) || CopiedFrom(Before(t), j))
  }

  /** The requests a sender sent after its count was copied. */
  function LateOf(t: Trace, j: Sender): nat {
    if t == [] then 0 else LateOf(Before(t), j) + if Last(t) == Send(j) && CopiedFrom(Before(t), j) then 1 else 0
  }

  /** All requests that were sent by a sender whose count had been copied. */
  function LateSends(t: Trace): nat {
    if t == [] then 0
    else LateSends(Before(t)) + if Last(t).Send? && CopiedFrom(Before(t), Last(t).sender) then 1 else 0
  }

  /** Whether a sender had a request under way when its count was copied. */
  predicate OpenAtCopy(t: Trace, j: Sender) {
    && t != []
    && if Last(t).Copy? && Last(t).from == j then j in Counted(Before(t)) else OpenAtCopy(Before(t), j)
  }

  lemma {:induction false} OnlyCopiedAreLate(t: Trace, j: Sender)
    ensures !CopiedFrom(t, j) ==> LateOf(t, j) == 0
  {
    if t != [] {
      OnlyCopiedAreLate(Before(t), j);
    }
  }

  lemma {:induction false} OnlyBegunAreCopied(t: Trace, max: int, j: Sender)
    requires Legal(t, max) && CopiedFrom(t, j)
    ensures Begun(t, j)
  {
    if Last(t).Copy? && Last(t).from == j {
      LiveHasBegun(Before(t), j);
    } else {
      OnlyBegunAreCopied(Before(t), max, j);
    }
  }

  lemma {:induction false} OtherThanLatestIsCopied(t: Trace)
    requires AnyBegun(t)
    ensures Latest(t) in Current(t) && forall i :: i in Current(t) && i != Latest(t) ==> CopiedFrom(t, i)
  {
    if !Last(t).Begin? && !Last(t).Copy? {
      OtherThanLatestIsCopied(Before(t));
    }
  }

  lemma {:induction false} LatestMissesTheLate(t: Trace, max: int)
    requires Legal(t, max) && InTurn(t) && AnyBegun(t)
    ensures Unseen(t, Latest(t)) <= LateSends(t)
  {
    if Last(t).Copy? {
      CurrentHasBegun(Before(t), Last(t).from);
      OtherThanLatestIsCopied(Before(t));
      LatestMissesTheLate(Before(t), max);
    } else if !Last(t).Begin? {
      LatestMissesTheLate(Before(t), max);
      OtherThanLatestIsCopied(Before(t));
    }
  }

  lemma {:induction false} CurrentHasBegun(t: Trace, j: Sender)
    requires j in Current(t)
    ensures AnyBegun(t)
  {
    if !Last(t).Begin? && !Last(t).Copy? {
      CurrentHasBegun(Before(t), j);
    }
  }

  /**
   * Runs one after another, none stopping between a request and its row, pass the
   * ceiling by at most the requests sent under a count that had been copied.
   */
  lemma {:induction false} RunsInTurnPassByTheLate(t: Trace, max: nat)
    requires Legal(t, max) && InTurn(t)
    ensures Sent(t) <= max + LateSends(t)
  {
    if t != [] {
      RunsInTurnPassByTheLate(Before(t), max);
      if Last(t).Send? {
        var j := Last(t).sender;
        CurrentHasBegun(Before(t), j);
        OtherThanLatestIsCopied(Before(t));
        if j == Latest(Before(t)) {
          LatestMissesTheLate(t, max);
          TotalIsBounded(t, max, j);
        }
      }
    }
  }

  // ------------------------------------------------------------------- one more event

  lemma Extended(t: Trace, e: Event)
    ensures Before(t + [e]) == t && Last(t + [e]) == e
  {
  }

  /** A sender that began by reading the ledger: what it counts, and whether its last request is undecided. */
  predicate Holds(t: Trace, j: Sender, count: int, open: bool) {
    && Live(t, j) && Counter(t, j) == count && (j in Counted(t) <==> open)
    && Awaits(t, j) == (if open then {j} else {}) && Void(t, j) == 0
  }

  /** How a counted request goes on: sent and ledgered, or refused. */
  function Decided(j: Sender, sent: bool): Trace {
    if sent then [Send(j)] + [Record(j)] else [Refuse(j)]
  }

  lemma Begins(t: Trace, max: int, j: Sender)
    requires Legal(t, max) && !Begun(t, j) && Unledgered(t) == {}
    ensures var u := t + [Begin(j)];
            && Legal(u, max) && Holds(u, j, Sent(t), false) && Unseen(u, j) == 0
            && Current(u) == {j} && !CopiedFrom(u, j) && (InTurn(t) ==> InTurn(u)) && LateSends(u) == LateSends(t)
            && Sent(u) == Sent(t) && Recorded(u) == Recorded(t) && Unledgered(u) == {}
            && forall k :: Begun(u, k) <==> k == j || Begun(t, k)
  {
    Extended(t, Begin(j));
    NotCounted(t, max, j);
    EveryRequestHasARow(t, max);
    if CopiedFrom(t, j) { OnlyBegunAreCopied(t, max, j); }
  }

  lemma Copies(t: Trace, max: int, j: Sender, from: Sender)
    requires Legal(t, max) && !Begun(t, j) && Live(t, from) && Unledgered(t) == {}
    ensures var u := t + [Copy(j, from)];
            && Legal(u, max) && Live(u, j) && j !in Counted(u) && Counter(u, j) == Counter(t, from)
            && Awaits(u, j) == Awaits(t, from) && Void(u, j) == Void(t, from) && Unseen(u, j) == Unseen(t, from)
            && Current(u) == {j, from} && CopiedFrom(u, from) && (OpenAtCopy(u, from) <==> from in Counted(t))
            && LateOf(u, from) == LateOf(t, from) && (InTurn(t) && Current(t) == {from} ==> InTurn(u))
            && LateSends(u) == LateSends(t)
            && Sent(u) == Sent(t) && Recorded(u) == Recorded(t) && Unledgered(u) == {}
            && forall k :: Begun(u, k) <==> k == j || Begun(t, k)
  {
    Extended(t, Copy(j, from));
    NotCounted(t, max, j);
  }

  lemma Counts(t: Trace, max: int, j: Sender)
    requires Legal(t, max) && Live(t, j) && j !in Counted(t) && Unledgered(t) == {}
    ensures var u := t + [Count(j)];
            && Legal(u, max) && Live(u, j) && j in Counted(u) && Counter(u, j) == Counter(t, j) + 1
            && Awaits(u, j) == Awaits(t, j) + {j} && Void(u, j) == Void(t, j) && Unseen(u, j) == Unseen(t, j)
            && Sent(u) == Sent(t) && Recorded(u) == Recorded(t) && Unledgered(u) == {}
            && forall k :: Begun(u, k) <==> Begun(t, k)
  {
    Extended(t, Count(j));
  }

  lemma Decides(t: Trace, max: int, j: Sender, sent: bool)
    requires Legal(t, max) && Live(t, j) && j in Counted(t) && Unledgered(t) == {}
    requires sent ==> Counter(t, j) <= max
    ensures var u, n := t + Decided(j, sent), if sent then 1 else 0;
            && Legal(u, max) && Live(u, j) && j !in Counted(u) && Counter(u, j) == Counter(t, j) - 1 + n
            && Awaits(u, j) == Awaits(t, j) - {j} && Void(u, j) == Void(t, j) && Unseen(u, j) == Unseen(t, j)
            && Sent(u) == Sent(t) + n && Recorded(u) == Recorded(t) + n && Unledgered(u) == {}
            && forall k :: Begun(u, k) <==> Begun(t, k)
  {
    if sent {
      var v := t + [Send(j)];
      Extended(t, Send(j));
      assert Legal(v, max) && j in Unledgered(v);
      Extended(v, Record(j));
      assert t + Decided(j, sent) == v + [Record(j)];
    } else {
      Extended(t, Refuse(j));
    }
  }

  /** What another sender's counting means to k: nothing. */
  lemma CountsElsewhere(t: Trace, j: Sender, k: Sender)
    requires k != j
    ensures var u := t + [Count(j)];
            && Live(u, k) == Live(t, k) && Counter(u, k) == Counter(t, k) && (k in Counted(u) <==> k in Counted(t))
            && Awaits(u, k) == Awaits(t, k) && Void(u, k) == Void(t, k) && Unseen(u, k) == Unseen(t, k)
  {
    Extended(t, Count(j));
  }

  /** What another sender's request means to k: unseen, unless k's count has it already; then it may be void. */
  lemma DecidesElsewhere(t: Trace, j: Sender, sent: bool, k: Sender)
    requires k != j
    ensures var u := t + Decided(j, sent);
            && Live(u, k) == Live(t, k) && Counter(u, k) == Counter(t, k) && (k in Counted(u) <==> k in Counted(t))
            && Awaits(u, k) == Awaits(t, k) - {j}
            && Void(u, k) == Void(t, k) + (if !sent && j in Awaits(t, k) then 1 else 0)
            && Unseen(u, k) == Unseen(t, k) + (if sent && j !in Awaits(t, k) then 1 else 0)
  {
    if sent {
      var v := t + [Send(j)];
      Extended(t, Send(j));
      Extended(v, Record(j));
      assert t + Decided(j, sent) == v + [Record(j)];
    } else {
      Extended(t, Refuse(j));
    }
  }

  lemma CopiesElsewhere(t: Trace, j: Sender, from: Sender, k: Sender)
    requires k != j
    ensures var u := t + [Copy(j, from)];
            && Live(u, k) == Live(t, k) && Counter(u, k) == Counter(t, k) && (k in Counted(u) <==> k in Counted(t))
            && Awaits(u, k) == Awaits(t, k) && Void(u, k) == Void(t, k) && Unseen(u, k) == Unseen(t, k)
  {
    Extended(t, Copy(j, from));
  }

  /** A sender whose turn it is and that may make a request, and what it counts. */
  predicate Counting(t: Trace, j: Sender, count: int) {
    Live(t, j) && j !in Counted(t) && Counter(t, j) == count && j in Current(t)
  }

  /** A whole request of another sender is unseen when it was sent, and nothing otherwise. */
  lemma AttemptedElsewhere(t: Trace, j: Sender, sent: bool, k: Sender, count: int, open: bool)
    requires k != j && Holds(t, k, count, open)
    ensures var u := t + [Count(j)] + Decided(j, sent);
            Holds(u, k, count, open) && Unseen(u, k) == Unseen(t, k) + if sent then 1 else 0
  {
    CountsElsewhere(t, j, k);
    DecidesElsewhere(t + [Count(j)], j, sent, k);
  }

  /** The sender's run is under way; `beside` is the sender that copied its count, if one did. */
  predicate Turn(t: Trace, j: Sender, beside: set<Sender>) {
    Current(t) == {j} + beside && (CopiedFrom(t, j) <==> beside != {})
  }

  lemma TurnAfterCount(t: Trace, j: Sender, k: Sender)
    ensures var u := t + [Count(j)];
            && Current(u) == Current(t) && CopiedFrom(u, k) == CopiedFrom(t, k)
            && LateOf(u, k) == LateOf(t, k) && OpenAtCopy(u, k) == OpenAtCopy(t, k) && (InTurn(t) ==> InTurn(u))
            && LateSends(u) == LateSends(t)
  {
    Extended(t, Count(j));
  }

  lemma TurnAfterDecided(t: Trace, j: Sender, sent: bool, k: Sender)
    ensures var u := t + Decided(j, sent);
            && Current(u) == Current(t) && CopiedFrom(u, k) == CopiedFrom(t, k) && OpenAtCopy(u, k) == OpenAtCopy(t, k)
            && LateOf(u, k) == LateOf(t, k) + (if sent && k == j && CopiedFrom(t, k) then 1 else 0)
            && LateSends(u) == LateSends(t) + (if sent && CopiedFrom(t, j) then 1 else 0)
            && (InTurn(t) && (sent ==> j in Current(t)) ==> InTurn(u))
  {
    if sent {
      var v := t + [Send(j)];
      Extended(t, Send(j));
      Extended(v, Record(j));
      assert t + Decided(j, sent) == v + [Record(j)];
    } else {
      Extended(t, Refuse(j));
    }
  }

  lemma TurnAfterAttempt(t: Trace, j: Sender, sent: bool, k: Sender)
    requires k != j
    ensures var u := t + [Count(j)] + Decided(j, sent);
            && Current(u) == Current(t) && CopiedFrom(u, k) == CopiedFrom(t, k)
            && LateOf(u, k) == LateOf(t, k) && OpenAtCopy(u, k) == OpenAtCopy(t, k)
  {
    TurnAfterCount(t, j, k);
    TurnAfterDecided(t + [Count(j)], j, sent, k);
  }

  lemma CountingElsewhere(t: Trace, j: Sender, sent: bool, k: Sender, count: int)
    requires k != j && Counting(t, k, count)
    ensures Counting(t + [Count(j)], k, count) && Counting(t + Decided(j, sent), k, count)
  {
    CountsElsewhere(t, j, k);
    DecidesElsewhere(t, j, sent, k);
    TurnAfterCount(t, j, k);
    TurnAfterDecided(t, j, sent, k);
  }

  lemma CountingAttempts(t: Trace, max: int, j: Sender, count: int, goes: bool)
    requires Legal(t, max) && Unledgered(t) == {} && Counting(t, j, count) && (goes ==> count < max)
    ensures var u := t + [Count(j)] + Decided(j, goes); Counting(u, j, count + if goes then 1 else 0)
  {
    Counts(t, max, j);
    TurnAfterCount(t, j, j);
    Decides(t + [Count(j)], max, j, goes);
    TurnAfterDecided(t + [Count(j)], j, goes, j);
  }

  // ------------------------------------------------------------------ closed statements

  /** A history that a proof looks into; the statements below stay closed where one only passes them on. */
  predicate Opened(t: Trace) {
    true
  }

  /** What holds of the history of a scan whose runs follow one another. */
  ghost predicate Lawful(t: Trace, max: int, sent: nat) {
    forall u {:trigger Opened(u)} :: Opened(u) && u == t ==>
      Legal(u, max) && InTurn(u) && Unledgered(u) == {} && Sent(u) == Recorded(u) == sent
  }

  /** The senders so far are numbered from zero. */
  ghost predicate Numbered(t: Trace, senders: nat) {
    forall k: Sender {:trigger Begun(t, k)} :: Begun(t, k) ==> k < senders
  }

  lemma LawfulAtFirst(max: int)
    ensures Lawful([], max, 0)
  {
    assert Legal([], max) && InTurn([]) && Unledgered([]) == {} && Sent([]) == Recorded([]) == 0;
  }

  lemma OpenLawful(t: Trace, max: int, sent: nat)
    requires Lawful(t, max, sent)
    ensures Legal(t, max) && InTurn(t) && Unledgered(t) == {} && Sent(t) == Recorded(t) == sent
  {
    assert Opened(t);
  }

  /** What a crawl's count is in the history: its own requests, the others' it does not see, and whose turn it is. */
  ghost predicate Books(t: Trace, j: Sender, count: int, open: bool, unseen: nat, beside: set<Sender>) {
    forall u {:trigger Opened(u)} :: Opened(u) && u == t ==>
      Holds(u, j, count, open) && Unseen(u, j) == unseen && Turn(u, j, beside)
  }

  lemma OpenBooks(t: Trace, j: Sender, count: int, open: bool, unseen: nat, beside: set<Sender>)
    requires Books(t, j, count, open, unseen, beside)
    ensures Holds(t, j, count, open) && Unseen(t, j) == unseen && Turn(t, j, beside)
  {
    assert Opened(t);
  }

  lemma BooksAfterCount(t: Trace, max: int, sent: nat, j: Sender, count: int, unseen: nat, beside: set<Sender>)
    requires Lawful(t, max, sent) && Books(t, j, count, false, unseen, beside)
    ensures Books(t + [Count(j)], j, count + 1, true, unseen, beside)
  {
    OpenLawful(t, max, sent);
    OpenBooks(t, j, count, false, unseen, beside);
    Counts(t, max, j);
    TurnAfterCount(t, j, j);
    assert Holds(t + [Count(j)], j, count + 1, true);
  }

  lemma BooksAfterDecided(
      t: Trace, max: int, sent: nat, j: Sender, count: int, unseen: nat, beside: set<Sender>, goes: bool)
    requires Lawful(t, max, sent) && Books(t, j, count, true, unseen, beside) && (goes ==> count <= max)
    ensures Books(t + Decided(j, goes), j, count - if goes then 0 else 1, false, unseen, beside)
  {
    OpenLawful(t, max, sent);
    OpenBooks(t, j, count, true, unseen, beside);
    Decides(t, max, j, goes);
    TurnAfterDecided(t, j, goes, j);
    assert Holds(t + Decided(j, goes), j, count - if goes then 0 else 1, false);
  }

  lemma BooksAfterAttempt(
      t: Trace, j: Sender, count: int, open: bool, unseen: nat, beside: set<Sender>, k: Sender, goes: bool)
    requires Books(t, j, count, open, unseen, beside) && k != j
    ensures Books(t + [Count(k)] + Decided(k, goes), j, count, open, unseen + if goes then 1 else 0, beside)
  {
    OpenBooks(t, j, count, open, unseen, beside);
    AttemptedElsewhere(t, k, goes, j, count, open);
    TurnAfterAttempt(t, k, goes, j);
  }

  /** The ledger's rows are the crawl's settled requests and those it does not see. */
  lemma BooksBalance(t: Trace, max: int, sent: nat, j: Sender, count: int, open: bool, unseen: nat, beside: set<Sender>)
    requires Lawful(t, max, sent) && Books(t, j, count, open, unseen, beside)
    ensures sent == count - (if open then 1 else 0) + unseen
  {
    OpenLawful(t, max, sent);
    OpenBooks(t, j, count, open, unseen, beside);
    LiveHasBegun(t, j);
    CountedAndUnseen(t, max, j);
  }

  // ---------------------------------------------------------------- side by side

  /** A sender that counts, sends and ledgers n requests. */
  function Burst(j: Sender, n: nat): Trace {
    if n == 0 then [] else Burst(j, n - 1) + [Count(j)] + Decided(j, true)
  }

  lemma LastOfBurst(t: Trace, j: Sender, n: nat)
    requires n > 0
    ensures t + Burst(j, n) == t + Burst(j, n - 1) + [Count(j)] + Decided(j, true)
  {
    var before, counted, decided := Burst(j, n - 1), [Count(j)], Decided(j, true);
    assert t + (before + counted + decided) == t + before + counted + decided;
  }

  /** The sender may make a request, and every request made so far has its row. */
  predicate Free(t: Trace, max: int, j: Sender) {
    Legal(t, max) && Live(t, j) && j !in Counted(t) && Unledgered(t) == {}
  }

  lemma OneMore(t: Trace, max: int, j: Sender)
    requires Free(t, max, j) && Counter(t, j) < max
    ensures var u := t + [Count(j)] + Decided(j, true);
            && Free(u, max, j) && Counter(u, j) == Counter(t, j) + 1 && Sent(u) == Sent(t) + 1
            && forall k :: Begun(u, k) <==> Begun(t, k)
  {
    var v := t + [Count(j)];
    Counts(t, max, j);
    Decides(v, max, j, true);
    var u := v + Decided(j, true);
    forall k ensures Begun(u, k) <==> Begun(t, k) {
      assert Begun(v, k) <==> Begun(t, k);
    }
  }

  lemma {:induction false} BurstIsLegal(t: Trace, max: int, j: Sender, n: nat)
    requires Free(t, max, j) && Counter(t, j) + n <= max
    ensures var u := t + Burst(j, n);
            && Free(u, max, j) && Counter(u, j) == Counter(t, j) + n && Sent(u) == Sent(t) + n
            && forall k :: Begun(u, k) <==> Begun(t, k)
  {
    if n == 0 {
      assert t + Burst(j, 0) == t;
    } else {
      BurstIsLegal(t, max, j, n - 1);
      var u := t + Burst(j, n - 1);
      OneMore(u, max, j);
      LastOfBurst(t, j, n);
    }
  }

  lemma OneMoreElsewhere(t: Trace, j: Sender, k: Sender)
    requires k != j
    ensures var u := t + [Count(j)] + Decided(j, true);
            Live(u, k) == Live(t, k) && Counter(u, k) == Counter(t, k) && (k in Counted(u) <==> k in Counted(t))
  {
    CountsElsewhere(t, j, k);
    DecidesElsewhere(t + [Count(j)], j, true, k);
  }

  lemma {:induction false} BurstElsewhere(t: Trace, j: Sender, n: nat, k: Sender)
    requires k != j
    ensures var u := t + Burst(j, n);
            Live(u, k) == Live(t, k) && Counter(u, k) == Counter(t, k) && (k in Counted(u) <==> k in Counted(t))
  {
    if n == 0 {
      assert t + Burst(j, 0) == t;
    } else {
      BurstElsewhere(t, j, n - 1, k);
      OneMoreElsewhere(t + Burst(j, n - 1), j, k);
      LastOfBurst(t, j, n);
    }
  }

  /** How often the ledger was read, which is once for each run. */
  function Readings(t: Trace): nat {
    if t == [] then 0 else Readings(Before(t)) + if Last(t).Begin? then 1 else 0
  }

  lemma OneMoreReadsNothing(t: Trace, j: Sender)
    ensures Readings(t + [Count(j)] + Decided(j, true)) == Readings(t)
  {
    var u := t + [Count(j)];
    Extended(t, Count(j));
    Extended(u, Send(j));
    Extended(u + [Send(j)], Record(j));
    assert Readings(u + [Send(j)]) == Readings(u) == Readings(t);
    assert u + Decided(j, true) == u + [Send(j)] + [Record(j)];
  }

  lemma {:induction false} BurstReadsNothing(t: Trace, j: Sender, n: nat)
    ensures Readings(t + Burst(j, n)) == Readings(t)
  {
    if n == 0 {
      assert t + Burst(j, 0) == t;
    } else {
      BurstReadsNothing(t, j, n - 1);
      OneMoreReadsNothing(t + Burst(j, n - 1), j);
      LastOfBurst(t, j, n);
    }
  }

  /** A burst of the run under way keeps to its turn, and is late when its sender's count was copied. */
  lemma {:induction false} BurstInTurn(t: Trace, j: Sender, n: nat, k: Sender)
    requires InTurn(t) && j in Current(t)
    ensures var u := t + Burst(j, n);
            && InTurn(u) && Current(u) == Current(t) && CopiedFrom(u, k) == CopiedFrom(t, k)
            && LateSends(u) == LateSends(t) + if CopiedFrom(t, j) then n else 0
  {
    if n == 0 {
      assert t + Burst(j, 0) == t;
    } else {
      var u := t + Burst(j, n - 1);
      BurstInTurn(t, j, n - 1, k);
      BurstInTurn(t, j, n - 1, j);
      TurnAfterCount(u, j, k);
      TurnAfterCount(u, j, j);
      TurnAfterDecided(u + [Count(j)], j, true, k);
      LastOfBurst(t, j, n);
    }
  }

  lemma OneBegins(max: int)
    ensures var t := [Begin(0)];
            && Free(t, max, 0) && Counter(t, 0) == Sent(t) == 0 && Readings(t) == 1
            && InTurn(t) && Turn(t, 0, {}) && LateSends(t) == 0
            && forall k :: Begun(t, k) <==> k == 0
  {
    Begins([], max, 0);
    assert [] + [Begin(0)] == [Begin(0)] && Before([Begin(0)]) == [];
  }

  lemma TwoBegin(max: int)
    ensures var t := [Begin(0)] + [Begin(1)];
            && Free(t, max, 0) && Free(t, max, 1) && Counter(t, 0) == Counter(t, 1) == Sent(t) == 0
            && forall k :: Begun(t, k) <==> k < 2
  {
    OneBegins(max);
    Begins([Begin(0)], max, 1);
    Extended([Begin(0)], Begin(1));
  }

  /** Each of two senders that count alike spends what is left of the ceiling. */
  lemma BothSpend(t: Trace, max: int, n: nat)
    requires Free(t, max, 0) && Free(t, max, 1) && Counter(t, 0) == Counter(t, 1) == max - n
    ensures var u := t + Burst(0, n) + Burst(1, n);
            && Legal(u, max) && Unledgered(u) == {} && Sent(u) == Sent(t) + 2 * n && Readings(u) == Readings(t)
            && forall k :: Begun(u, k) <==> Begun(t, k)
  {
    BurstIsLegal(t, max, 0, n);
    BurstElsewhere(t, 0, n, 1);
    BurstIsLegal(t + Burst(0, n), max, 1, n);
    BurstReadsNothing(t, 0, n);
    BurstReadsNothing(t + Burst(0, n), 1, n);
  }

  /** Two runs that both began before either sent can each spend the whole ceiling. */
  lemma TwoRunsSpendTwice(max: nat) returns (t: Trace)
    ensures Legal(t, max) && Unledgered(t) == {} && Readings(t) == 2 && Sent(t) == 2 * max
  {
    t := [Begin(0)] + [Begin(1)];
    TwoBegin(max);
    OneBegins(max);
    Extended([Begin(0)], Begin(1));
    BothSpend(t, max, max);
    t := t + Burst(0, max) + Burst(1, max);
  }

  /**
   * A run that reads a ledger already past the ceiling sends nothing, so the
   * bound is by the runs that sent: the last to read may have missed nothing.
   */
  lemma LastReaderMayMissNothing(max: nat) returns (t: Trace)
    requires max > 0
    ensures Legal(t, max) && AnyBegun(t) && Unseen(t, Latest(t)) == 0 && Sent(t) > max
  {
    var two := [Begin(0)] + [Begin(1)];
    TwoBegin(max);
    BothSpend(two, max, max);
    var spent := two + Burst(0, max) + Burst(1, max);
    t := spent + [Begin(2)];
    Begins(spent, max, 2);
    Extended(spent, Begin(2));
  }

  // ---------------------------------------------------------------- one run by itself

  /** A crawl that sent `alone` requests before its count was copied. */
  function Crawled(alone: nat): Trace {
    [Begin(0)] + Burst(0, alone) + [Copy(1, 0)]
  }

  lemma CrawlReturns(max: int, alone: nat)
    requires alone <= max
    ensures var t := Crawled(alone);
            && Free(t, max, 0) && Free(t, max, 1) && Counter(t, 0) == Counter(t, 1) == Sent(t) == alone
            && Readings(t) == 1 && InTurn(t) && Turn(t, 0, {1}) && LateSends(t) == 0 && !CopiedFrom(t, 1)
  {
    var t := [Begin(0)] + Burst(0, alone);
    OneBegins(max);
    BurstIsLegal([Begin(0)], max, 0, alone);
    BurstReadsNothing([Begin(0)], 0, alone);
    BurstInTurn([Begin(0)], 0, alone, 0);
    BurstInTurn([Begin(0)], 0, alone, 1);
    assert !CopiedFrom([Begin(0)], 1) by { assert Before([Begin(0)]) == []; }
    Copies(t, max, 1, 0);
    CopiesElsewhere(t, 1, 0, 0);
    Extended(t, Copy(1, 0));
  }

  lemma LateBursts(t: Trace, n: nat)
    requires InTurn(t) && Turn(t, 0, {1}) && !CopiedFrom(t, 1)
    ensures var u := t + Burst(0, n) + Burst(1, n); InTurn(u) && LateSends(u) == LateSends(t) + n
  {
    BurstInTurn(t, 0, n, 1);
    BurstInTurn(t + Burst(0, n), 1, n, 1);
  }

  /**
   * One run with no other beside it, each request with its row: what the crawl
   * left chained and the probes both spend what was free when the count was copied.
   * So the total passes the ceiling by all the late requests there can be.
   */
  lemma LateRequestsPassTheCeiling(max: nat, alone: nat) returns (t: Trace)
    requires alone <= max
    ensures Legal(t, max) && InTurn(t) && Unledgered(t) == {} && Readings(t) == 1
    ensures LateSends(t) == max - alone && Sent(t) == max + LateSends(t)
  {
    CrawlReturns(max, alone);
    LateBursts(Crawled(alone), max - alone);
    BothSpend(Crawled(alone), max, max - alone);
    t := Crawled(alone) + Burst(0, max - alone) + Burst(1, max - alone);
  }

  /** One run whose copied count includes a request that is refused afterwards stays one too high. */
  lemma CopiedCountMayBeOneTooHigh(max: int) returns (t: Trace)
    ensures Legal(t, max) && Counted(t) == {} && Readings(t) == 1 && Counter(t, 1) == Sent(t) + 1
  {
    var one := [Begin(0)];
    OneBegins(max);
    Counts(one, max, 0);
    var two := one + [Count(0)];
    Extended(one, Count(0));
    Copies(two, max, 1, 0);
    CopiesElsewhere(two, 1, 0, 0);
    var three := two + [Copy(1, 0)];
    Extended(two, Copy(1, 0));
    Decides(three, max, 0, false);
    DecidesElsewhere(three, 0, false, 1);
    t := three + Decided(0, false);
    Extended(three, Refuse(0));
    assert Readings(three) == Readings(two) == Readings(one);
    assert Before(one) == [] && Counted(one) == {};
  }
}
