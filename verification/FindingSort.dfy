/** The finding sort orders, and the keyset cursors that page through them. */
module FindingSort {
  import opened Options

  datatype Severity = INFO | LOW | MEDIUM | HIGH | CRITICAL

  const FINDING_SEVERITIES := [INFO, LOW, MEDIUM, HIGH, CRITICAL]

  function Position(s: Severity): (i: nat)
    ensures i < 5 && FINDING_SEVERITIES[i] == s
  {
    match s
    case INFO => 0
    case LOW => 1
    case MEDIUM => 2
    case HIGH => 3
    case CRITICAL => 4
  }

  datatype SortKey = BySeverity | ByCvss | ByEpss | ByName | ByDetected

  datatype Direction = Ascending | Descending

  datatype Column = SeverityColumn | CvssColumn | EpssColumn | NameColumn | CreatedColumn

  function SortColumns(key: SortKey): seq<Column> {
    match key
    case BySeverity => [SeverityColumn, CvssColumn]
    case ByCvss => [CvssColumn]
    case ByEpss => [EpssColumn]
    case ByName => [NameColumn]
    case ByDetected => [CreatedColumn]
  }

  predicate Nullable(c: Column) {
    c.CvssColumn? || c.EpssColumn?
  }

  /** Text is represented by its place in the database's collation, a time by its milliseconds. */
  datatype Finding = Finding(
    id: int, severity: Severity, cvss: Option<real>, epss: Option<real>, name: int, createdAt: int)

  datatype Value = Null | Score(score: real) | Level(level: Severity) | Rank(rank: int)

  function OfScore(s: Option<real>): Value {
    match s case None => Null case Some(x) => Score(x)
  }

  /** What a row holds in a column. */
  function Field(row: Finding, c: Column): (v: Value)
    ensures v.Null? ==> Nullable(c)
  {
    match c
    case SeverityColumn => Level(row.severity)
    case CvssColumn => OfScore(row.cvss)
    case EpssColumn => OfScore(row.epss)
    case NameColumn => Rank(row.name)
    case CreatedColumn => Rank(row.createdAt)
  }

  // ------------------------------------------------------------ the sort order

  predicate Less(a: Value, b: Value) {
    match (a, b)
    case (Score(x), Score(y)) => x < y
    case (Level(x), Level(y)) => Position(x) < Position(y)
    case (Rank(x), Rank(y)) => x < y
    case _ => false
  }

  /** Strictly earlier in a column's order, nulls last in either direction. */
  predicate Earlier(a: Value, b: Value, direction: Direction) {
    !a.Null? && (b.Null? || if direction == Ascending then Less(a, b) else Less(b, a))
  }

  /** Strictly earlier under `ORDER BY columns[i..], id ASC`. */
  predicate EarlierFrom(columns: seq<Column>, direction: Direction, a: Finding, b: Finding, i: nat)
    requires i <= |columns|
    decreases |columns| - i
  {
    if i == |columns| then a.id < b.id
    else
      || Earlier(Field(a, columns[i]), Field(b, columns[i]), direction)
      || (Field(a, columns[i]) == Field(b, columns[i]) && EarlierFrom(columns, direction, a, b, i + 1))
  }

  /** The order of `findingOrderBy`. */
  predicate Before(sort: SortKey, direction: Direction, a: Finding, b: Finding) {
    EarlierFrom(SortColumns(sort), direction, a, b, 0)
  }

  /** Earlier by a value every row has, in a direction. */
  predicate Ahead(x: int, y: int, direction: Direction) {
    if direction == Ascending then x < y else x > y
  }

  /** Earlier by a score, rows without one last. */
  predicate ScoredAhead(x: Option<real>, y: Option<real>, direction: Direction) {
    x.Some? && (y.None? || if direction == Ascending then x.value < y.value else x.value > y.value)
  }

  /** INFO to CRITICAL. */
  function Gravity(s: Severity): int {
    if s == INFO then 0 else if s == LOW then 1 else if s == MEDIUM then 2 else if s == HIGH then 3 else 4
  }

  /**
   * Which of two rows comes first, by the rows themselves: by severity and then the CVSS
   * score, or by the one column named; rows that tie by their ids.
   */
  lemma SortMeans(sort: SortKey, direction: Direction, a: Finding, b: Finding)
    ensures Before(sort, direction, a, b) <==>
            match sort
            case BySeverity =>
              || Ahead(Gravity(a.severity), Gravity(b.severity), direction)
              || (a.severity == b.severity &&
                  (ScoredAhead(a.cvss, b.cvss, direction) || (a.cvss == b.cvss && a.id < b.id)))
            case ByCvss => ScoredAhead(a.cvss, b.cvss, direction) || (a.cvss == b.cvss && a.id < b.id)
            case ByEpss => ScoredAhead(a.epss, b.epss, direction) || (a.epss == b.epss && a.id < b.id)
            case ByName => Ahead(a.name, b.name, direction) || (a.name == b.name && a.id < b.id)
            case ByDetected => Ahead(a.createdAt, b.createdAt, direction) || (a.createdAt == b.createdAt && a.id < b.id)
  {
    match sort
    case BySeverity =>
      assert EarlierFrom(SortColumns(sort), direction, a, b, 2) <==> a.id < b.id;
      assert EarlierFrom(SortColumns(sort), direction, a, b, 1) <==>
          ScoredAhead(a.cvss, b.cvss, direction) || (a.cvss == b.cvss && a.id < b.id);
      assert Position(a.severity) == Gravity(a.severity) && Position(b.severity) == Gravity(b.severity);
    case _ => assert EarlierFrom(SortColumns(sort), direction, a, b, 1) <==> a.id < b.id;
  }

  lemma {:induction false} OneWay(columns: seq<Column>, direction: Direction, a: Finding, b: Finding, i: nat)
    requires i <= |columns|
    ensures EarlierFrom(columns, direction, a, b, i) ==> !EarlierFrom(columns, direction, b, a, i)
    ensures a.id != b.id ==> EarlierFrom(columns, direction, a, b, i) || EarlierFrom(columns, direction, b, a, i)
    decreases |columns| - i
  {
    if i < |columns| {
      OneWay(columns, direction, a, b, i + 1);
    }
  }

  lemma {:induction false} Chained(
      columns: seq<Column>, direction: Direction, a: Finding, b: Finding, c: Finding, i: nat)
    requires i <= |columns|
    requires EarlierFrom(columns, direction, a, b, i) && EarlierFrom(columns, direction, b, c, i)
    ensures EarlierFrom(columns, direction, a, c, i)
    decreases |columns| - i
  {
    if i < |columns| && Field(a, columns[i]) == Field(b, columns[i]) == Field(c, columns[i]) {
      Chained(columns, direction, a, b, c, i + 1);
    }
  }

  /** Every sort order is a strict total order on rows with distinct ids. */
  lemma OrderIsTotal(sort: SortKey, direction: Direction, a: Finding, b: Finding, c: Finding)
    ensures !(Before(sort, direction, a, b) && Before(sort, direction, b, a))
    ensures a.id != b.id ==> Before(sort, direction, a, b) || Before(sort, direction, b, a)
    ensures Before(sort, direction, a, b) && Before(sort, direction, b, c) ==> Before(sort, direction, a, c)
  {
    OneWay(SortColumns(sort), direction, a, b, 0);
    if Before(sort, direction, a, b) && Before(sort, direction, b, c) {
      Chained(SortColumns(sort), direction, a, b, c, 0);
    }
  }

  // ---------------------------------------------------------------- the filter

  datatype Where =
    | IdAfter(id: int)
    | IsNull(column: Column)
    | Equals(column: Column, value: Value)
    | SeverityIn(levels: seq<Severity>)
    | Below(column: Column, value: Value)
    | Above(column: Column, value: Value)
    | And(parts: seq<Where>)
    | Or(parts: seq<Where>)

  /** SQL truth: a comparison with a null is neither true nor false. */
  datatype Truth = True | False | Unknown

  function Known(b: bool): Truth {
    if b then True else False
  }

  function Compared(field: Value, b: bool): Truth {
    if field.Null? then Unknown else Known(b)
  }

  function Judge(w: Where, row: Finding): Truth {
    match w
    case IdAfter(id) => Known(row.id > id)
    case IsNull(c) => Known(Field(row, c).Null?)
    case Equals(c, v) => Compared(Field(row, c), Field(row, c) == v)
    case SeverityIn(levels) => Known(row.severity in levels)
    case Below(c, v) => Compared(Field(row, c), Less(Field(row, c), v))
    case Above(c, v) => Compared(Field(row, c), Less(v, Field(row, c)))
    case And(parts) =>
      if exists i :: 0 <= i < |parts| && Judge(parts[i], row) == False then False
      else if exists i :: 0 <= i < |parts| && Judge(parts[i], row) == Unknown then Unknown
      else True
    case Or(parts) =>
      if exists i :: 0 <= i < |parts| && Judge(parts[i], row) == True then True
      else if exists i :: 0 <= i < |parts| && Judge(parts[i], row) == Unknown then Unknown
      else False
  }

  /** A row is selected only when the filter is true of it. */
  predicate Selects(w: Where, row: Finding) {
    Judge(w, row) == True
  }

  datatype Cursor = Cursor(sort: SortKey, direction: Direction, values: seq<Value>, id: int)

  /** The cursor issued behind a row. */
  function CursorOf(row: Finding, sort: SortKey, direction: Direction): (c: Cursor)
    ensures |c.values| == |SortColumns(sort)| && c.sort == sort
  {
    var columns := SortColumns(sort);
    Cursor(sort, direction, seq(|columns|, i requires 0 <= i < |columns| => Field(row, columns[i])), row.id)
  }

  predicate IsValidValue(c: Column, v: Value) {
    match c
    case SeverityColumn => v.Level?
    case CvssColumn => v.Null? || v.Score?
    case EpssColumn => v.Null? || v.Score?
    case NameColumn => v.Rank?
    case CreatedColumn => v.Rank?
  }

  /** What decoding checks of a cursor once its JSON is read. */
  predicate Decodes(cursor: Cursor) {
    var columns := SortColumns(cursor.sort);
    |cursor.values| == |columns| && forall i :: 0 <= i < |columns| ==> IsValidValue(columns[i], cursor.values[i])
  }

  function SeveritiesBeyond(s: Severity, direction: Direction): seq<Severity> {
    if direction == Descending then FINDING_SEVERITIES[..Position(s)] else FINDING_SEVERITIES[Position(s) + 1..]
  }

  /** Rows strictly past a value in a column's order, excluding nulls. */
  function Beyond(c: Column, v: Value, direction: Direction): Where
    requires IsValidValue(c, v) && !v.Null?
  {
    if c.SeverityColumn? then SeverityIn(SeveritiesBeyond(v.level, direction))
    else if direction == Descending then Below(c, v)
    else Above(c, v)
  }

  function AfterFrom(cursor: Cursor, i: nat): Where
    requires Decodes(cursor) && i <= |cursor.values|
    decreases |cursor.values| - i
  {
    var columns := SortColumns(cursor.sort);
    if i == |columns| then IdAfter(cursor.id)
    else
      var c, v := columns[i], cursor.values[i];
      var rest := AfterFrom(cursor, i + 1);
      if v.Null? then And([IsNull(c), rest])
      else
        var branches := [Beyond(c, v, cursor.direction), And([Equals(c, v), rest])];
        Or(if Nullable(c) then branches + [IsNull(c)] else branches)
  }

  /** Every row that sorts after the cursor. */
  function FindingsAfter(cursor: Cursor): Where
    requires Decodes(cursor)
  {
    AfterFrom(cursor, 0)
  }

  // -------------------------------------------------- the filter is the tail

  lemma IssuedCursorDecodes(row: Finding, sort: SortKey, direction: Direction)
    ensures Decodes(CursorOf(row, sort, direction))
  {
  }

  lemma SeverityBelow(s: Severity, other: Severity)
    ensures other in SeveritiesBeyond(s, Descending) <==> Position(other) < Position(s)
  {
    var levels := FINDING_SEVERITIES[..Position(s)];
    if Position(other) < Position(s) {
      assert levels[Position(other)] == other;
    }
  }

  lemma SeverityAbove(s: Severity, other: Severity)
    ensures other in SeveritiesBeyond(s, Ascending) <==> Position(s) < Position(other)
  {
    var levels := FINDING_SEVERITIES[Position(s) + 1..];
    if Position(s) < Position(other) {
      assert levels[Position(other) - Position(s) - 1] == other;
    }
  }

  lemma SeverityIsLater(a: Finding, b: Finding, direction: Direction)
    ensures Selects(Beyond(SeverityColumn, Level(a.severity), direction), b) <==>
            Earlier(Level(a.severity), Level(b.severity), direction)
  {
    if direction == Descending {
      SeverityBelow(a.severity, b.severity);
    } else {
      SeverityAbove(a.severity, b.severity);
    }
  }

  lemma ComparedIsLater(a: Finding, b: Finding, c: Column, direction: Direction)
    requires !Field(a, c).Null? && !c.SeverityColumn?
    ensures IsValidValue(c, Field(a, c))
    ensures Selects(Beyond(c, Field(a, c), direction), b) <==>
            !Field(b, c).Null? && Earlier(Field(a, c), Field(b, c), direction)
  {
  }

  lemma BeyondIsLater(a: Finding, b: Finding, c: Column, direction: Direction)
    requires !Field(a, c).Null?
    ensures IsValidValue(c, Field(a, c))
    ensures Selects(Beyond(c, Field(a, c), direction), b) <==>
            !Field(b, c).Null? && Earlier(Field(a, c), Field(b, c), direction)
  {
    if c.SeverityColumn? {
      SeverityIsLater(a, b, direction);
    } else {
      ComparedIsLater(a, b, c, direction);
    }
  }

  lemma SelectsBoth(v: Where, w: Where, row: Finding)
    ensures Selects(And([v, w]), row) <==> Selects(v, row) && Selects(w, row)
  {
    var both := [v, w];
    assert both[0] == v && both[1] == w;
  }

  lemma SelectsEither(v: Where, w: Where, row: Finding)
    ensures Selects(Or([v, w]), row) <==> Selects(v, row) || Selects(w, row)
  {
    var both := [v, w];
    assert both[0] == v && both[1] == w;
  }

  lemma SelectsOneOf(u: Where, v: Where, w: Where, row: Finding)
    ensures Selects(Or([u, v] + [w]), row) <==> Selects(u, row) || Selects(v, row) || Selects(w, row)
  {
    var all := [u, v] + [w];
    assert all[0] == u && all[1] == v && all[2] == w;
  }

  lemma {:induction false} FilterFrom(sort: SortKey, direction: Direction, a: Finding, b: Finding, i: nat)
    requires i <= |SortColumns(sort)|
    ensures Decodes(CursorOf(a, sort, direction))
    ensures Selects(AfterFrom(CursorOf(a, sort, direction), i), b) <==>
            EarlierFrom(SortColumns(sort), direction, a, b, i)
    decreases |SortColumns(sort)| - i
  {
    var columns, cursor := SortColumns(sort), CursorOf(a, sort, direction);
    if i < |columns| {
      FilterFrom(sort, direction, a, b, i + 1);
      var c, v, rest := columns[i], cursor.values[i], AfterFrom(cursor, i + 1);
      if v.Null? {
        SelectsBoth(IsNull(c), rest, b);
      } else {
        BeyondIsLater(a, b, c, direction);
        SelectsBoth(Equals(c, v), rest, b);
        SelectsEither(Beyond(c, v, direction), And([Equals(c, v), rest]), b);
        SelectsOneOf(Beyond(c, v, direction), And([Equals(c, v), rest]), IsNull(c), b);
      }
    }
  }

  /** The filter built from a row's cursor selects exactly the rows strictly after it in the sort order. */
  lemma FilterIsTheTail(sort: SortKey, direction: Direction, row: Finding, other: Finding)
    ensures Decodes(CursorOf(row, sort, direction))
    ensures Selects(FindingsAfter(CursorOf(row, sort, direction)), other) <==> Before(sort, direction, row, other)
  {
    FilterFrom(sort, direction, row, other, 0);
  }

  // -------------------------------------------------------------------- paging

  /** The rows that match the other filters, in the requested order. */
  ghost predicate Sorted(rows: seq<Finding>, sort: SortKey, direction: Direction) {
    forall i, j :: 0 <= i < j < |rows| ==> Before(sort, direction, rows[i], rows[j])
  }

  function Filtered(rows: seq<Finding>, w: Where): seq<Finding> {
    if rows == [] then []
    else (if Selects(w, rows[0]) then [rows[0]] else []) + Filtered(rows[1..], w)
  }

  function Take(rows: seq<Finding>, n: nat): seq<Finding> {
    if |rows| <= n then rows else rows[..n]
  }

  datatype Page = Page(findings: seq<Finding>, nextCursor: Option<Cursor>)

  /** One row more than the limit is read, and a cursor issued when that row was there. */
  function PageOf(matching: seq<Finding>, sort: SortKey, direction: Direction, limit: nat): Page
    requires limit >= 1
  {
    var found := Take(matching, limit + 1);
    if |found| > limit then
      Page(found[..limit], Some(CursorOf(found[limit - 1], sort, direction)))
    else Page(found, None)
  }

  function ListFindings(
      rows: seq<Finding>, sort: SortKey, direction: Direction, limit: nat, cursor: Option<Cursor>): Page
    requires limit >= 1 && (cursor.Some? ==> Decodes(cursor.value))
  {
    PageOf(if cursor.Some? then Filtered(rows, FindingsAfter(cursor.value)) else rows, sort, direction, limit)
  }

  lemma {:induction false} FilteredSplits(a: seq<Finding>, b: seq<Finding>, w: Where)
    requires forall i :: 0 <= i < |a| ==> !Selects(w, a[i])
    requires forall i :: 0 <= i < |b| ==> Selects(w, b[i])
    ensures Filtered(a + b, w) == b
  {
    if a != [] {
      assert (a + b)[1..] == a[1..] + b;
      FilteredSplits(a[1..], b, w);
    } else if b != [] {
      assert a + b == b && b[1..] == [] + b[1..];
      FilteredSplits([], b[1..], w);
    } else {
      assert a + b == [];
    }
  }

  lemma FilteredTail(rows: seq<Finding>, w: Where, k: nat)
    requires k < |rows| && forall i :: 0 <= i < |rows| ==> (Selects(w, rows[i]) <==> k < i)
    ensures Filtered(rows, w) == rows[k + 1..]
  {
    FilteredSplits(rows[..k + 1], rows[k + 1..], w);
    assert rows[..k + 1] + rows[k + 1..] == rows;
  }

  lemma CursorSelects(rows: seq<Finding>, sort: SortKey, direction: Direction, k: nat, i: nat)
    requires Sorted(rows, sort, direction) && k < |rows| && i < |rows|
    ensures Decodes(CursorOf(rows[k], sort, direction))
    ensures Selects(FindingsAfter(CursorOf(rows[k], sort, direction)), rows[i]) <==> k < i
  {
    FilterIsTheTail(sort, direction, rows[k], rows[i]);
    OrderIsTotal(sort, direction, rows[k], rows[i], rows[i]);
    assert i < k ==> Before(sort, direction, rows[i], rows[k]);
  }

  lemma CursorSkips(rows: seq<Finding>, sort: SortKey, direction: Direction, k: nat, cursor: Cursor)
    requires Sorted(rows, sort, direction) && k < |rows| && cursor == CursorOf(rows[k], sort, direction)
    ensures Decodes(cursor) && Filtered(rows, FindingsAfter(cursor)) == rows[k + 1..]
  {
    IssuedCursorDecodes(rows[k], sort, direction);
    forall i | 0 <= i < |rows| ensures Selects(FindingsAfter(cursor), rows[i]) <==> k < i {
      CursorSelects(rows, sort, direction, k, i);
    }
    FilteredTail(rows, FindingsAfter(cursor), k);
  }

  /** The cursor behind the first k rows; none at the start. */
  function CursorAt(rows: seq<Finding>, sort: SortKey, direction: Direction, k: nat): (c: Option<Cursor>)
    requires k <= |rows|
    ensures c.Some? ==> Decodes(c.value)
  {
    if k == 0 then None
    else IssuedCursorDecodes(rows[k - 1], sort, direction); Some(CursorOf(rows[k - 1], sort, direction))
  }

  /** The page behind the first k rows. */
  ghost predicate IsStretch(rows: seq<Finding>, sort: SortKey, direction: Direction, limit: nat, k: nat, page: Page)
    requires k <= |rows|
  {
    && page.findings == (if k + limit <= |rows| then rows[k..k + limit] else rows[k..])
    && page.nextCursor == (if k + limit < |rows| then CursorAt(rows, sort, direction, k + limit) else None)
  }

  lemma StretchOfRest(rows: seq<Finding>, sort: SortKey, direction: Direction, limit: nat, k: nat)
    requires limit >= 1 && k <= |rows|
    ensures IsStretch(rows, sort, direction, limit, k, PageOf(rows[k..], sort, direction, limit))
  {
    var matching := rows[k..];
    if k + limit < |rows| {
      assert matching[..limit + 1][..limit] == rows[k..k + limit];
      assert matching[..limit + 1][limit - 1] == rows[k + limit - 1];
    } else if k + limit == |rows| {
      assert rows[k..] == rows[k..k + limit];
    }
  }

  /** A page is the next stretch of the order, and carries a cursor exactly when rows remain behind it. */
  lemma PageIsNextStretch(rows: seq<Finding>, sort: SortKey, direction: Direction, limit: nat, k: nat)
    requires Sorted(rows, sort, direction) && limit >= 1 && k <= |rows|
    ensures var page := ListFindings(rows, sort, direction, limit, CursorAt(rows, sort, direction, k));
            IsStretch(rows, sort, direction, limit, k, page)
  {
    StretchOfRest(rows, sort, direction, limit, k);
    if k > 0 {
      CursorSkips(rows, sort, direction, k - 1, CursorOf(rows[k - 1], sort, direction));
    } else {
      assert rows[0..] == rows;
    }
  }

  /** What was read after some requests: a prefix of whole pages while a cursor is left, else everything. */
  ghost predicate ReadSoFar(
      rows: seq<Finding>, sort: SortKey, direction: Direction, limit: nat,
      all: seq<Finding>, requests: nat, next: Option<Cursor>)
  {
    && |all| <= |rows| && all == rows[..|all|]
    && if next.Some? then |all| == requests * limit < |rows| && next == CursorAt(rows, sort, direction, |all|)
       else all == rows && (requests - 1) * limit <= |rows| <= requests * limit
  }

  lemma OnePageMore(
      rows: seq<Finding>, sort: SortKey, direction: Direction, limit: nat, k: nat, requests: nat, page: Page)
    requires limit >= 1 && k == requests * limit <= |rows| && IsStretch(rows, sort, direction, limit, k, page)
    ensures ReadSoFar(rows, sort, direction, limit, rows[..k] + page.findings, requests + 1, page.nextCursor)
  {
    assert (requests + 1) * limit == k + limit;
    if k + limit <= |rows| {
      assert rows[..k] + page.findings == rows[..k + limit];
    } else {
      assert rows[..k] + page.findings == rows;
    }
  }

  /** Following the cursors over a fixed set of rows lists every row once, in order, and stops. */
  method ReadAllPages(rows: seq<Finding>, sort: SortKey, direction: Direction, limit: nat)
    returns (all: seq<Finding>, requests: nat)
    requires Sorted(rows, sort, direction) && limit >= 1
    ensures all == rows
    ensures (requests - 1) * limit <= |rows| <= requests * limit
  {
    var page := ListFindings(rows, sort, direction, limit, None);
    PageIsNextStretch(rows, sort, direction, limit, 0);
    OnePageMore(rows, sort, direction, limit, 0, 0, page);
    all, requests := rows[..0] + page.findings, 1;
    while page.nextCursor.Some?
      invariant ReadSoFar(rows, sort, direction, limit, all, requests, page.nextCursor)
      decreases |rows| - |all|, page.nextCursor.Some?
    {
      PageIsNextStretch(rows, sort, direction, limit, |all|);
      page := ListFindings(rows, sort, direction, limit, page.nextCursor);
      OnePageMore(rows, sort, direction, limit, |all|, requests, page);
      all, requests := all + page.findings, requests + 1;
    }
  }
}
