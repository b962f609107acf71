/**
 * The table of invitation draws: a date cell spans several rows, and the
 * parser carries it from row to row with a countdown.
 */
module DrawTable {
  import opened Prelude
  import opened Calendar

  /* ---------- extracted cells ---------- */

  /** The invitations cell: digits and commas (with their value, if any), "< n", or anything else. */
  datatype CountText = Digits(number: Option<int>) | FewerThan | OtherText

  datatype Cells = Cells(factors: string, score: string, scoreMatches: bool, invitations: string, count: CountText)

  /**
   * Five cells with the parsed date and the rowspan read as an integer; four
   * cells; or another number of cells, of which some may mention the draw type.
   */
  datatype Row =
    | Dated(date: Option<Day>, rowspan: Option<int>, highImpact: bool, cells: Cells)
    | Continued(highImpact: bool, cells: Cells)
    | Odd(mentions: bool)

  datatype SelectionRoute = SelectionRoute(factors: string, score: string, invitations: string, count: Option<nat>)

  datatype DrawError =
    | BadDate | BadRowspan | OddRow | NoDate | BlankFactors | BadScore | BadCount | DuplicateRoute
    | NoTotal | NoRoutes | TotalMismatch | Inconsistent | NothingFound

  function Integer(n: Option<int>): Result<nat, DrawError> {
    if n.None? || n.value <= 0 then Failure(BadCount) else Success(n.value)
  }

  function InvitationCount(c: CountText): Result<Option<nat>, DrawError> {
    match c
    case Digits(n) => if Integer(n).Failure? then Failure(BadCount) else Success(Some(Integer(n).value))
    case FewerThan => Success(None)
    case OtherText => Failure(BadCount)
  }

  function TableRoute(c: Cells): Result<SelectionRoute, DrawError> {
    if c.factors == "" then Failure(BlankFactors)
    else if !c.scoreMatches then Failure(BadScore)
    else
      var count := InvitationCount(c.count);
      if count.Failure? then Failure(count.error)
      else Success(SelectionRoute(c.factors, c.score, c.invitations, count.value))
  }

  /* ---------- which date covers a row ---------- */

  predicate Spans(r: Row) {
    r.Dated? && r.date.Some? && r.rowspan.Some? && r.rowspan.value > 0
  }

  function LastDated(rows: seq<Row>, n: nat): (p: Option<nat>)
    requires n <= |rows|
    ensures p.Some? ==> p.value < n && rows[p.value].Dated? && forall k | p.value < k < n :: !rows[k].Dated?
    ensures p.None? ==> forall k | 0 <= k < n :: !rows[k].Dated?
  {
    if n == 0 then None else if rows[n - 1].Dated? then Some(n - 1) else LastDated(rows, n - 1)
  }

  /**
   * The date that covers a row: its own, or the one of the last dated row
   * before it, when that one is well formed and spans far enough down.
   */
  function DateOf(rows: seq<Row>, i: nat): Option<Day>
    requires i < |rows|
  {
    if rows[i].Dated? then (if Spans(rows[i]) then rows[i].date else None)
    else
      var p := LastDated(rows, i);
      if p.Some? && Spans(rows[p.value]) && i - p.value < rows[p.value].rowspan.value then rows[p.value].date else None
  }

  /** What the countdown holds before row n. */
  function Remaining(rows: seq<Row>, n: nat): int
    requires n <= |rows|
  {
    var p := LastDated(rows, n);
    if p.None? || !Spans(rows[p.value]) || n - p.value >= rows[p.value].rowspan.value then 0
    else rows[p.value].rowspan.value - (n - p.value)
  }

  ghost predicate Carried(rows: seq<Row>, n: nat, date: Option<Day>, remaining: int)
    requires n <= |rows|
  {
    && remaining == Remaining(rows, n)
    && (remaining > 0 ==> date == rows[LastDated(rows, n).value].date)
  }

  /* ---------- the draws of a table ---------- */

  type Fold = string -> string

  function KeyOf(fold: Fold, route: SelectionRoute): (string, string) {
    (fold(route.factors), fold(route.score))
  }

  /** Row i contributes a route to the draw of date d. */
  predicate Lands(rows: seq<Row>, i: nat, d: Day)
    requires i < |rows|
  {
    && (rows[i].Dated? || rows[i].Continued?) && rows[i].highImpact
    && DateOf(rows, i) == Some(d) && TableRoute(rows[i].cells).Success?
  }

  function RouteOf(rows: seq<Row>, i: nat): SelectionRoute
    requires i < |rows| && (rows[i].Dated? || rows[i].Continued?) && TableRoute(rows[i].cells).Success?
  {
    TableRoute(rows[i].cells).value
  }

  ghost predicate RepeatsEarlier(rows: seq<Row>, i: nat, d: Day, fold: Fold)
    requires i < |rows| && Lands(rows, i, d)
  {
    exists j: nat :: j < i && Lands(rows, j, d) && KeyOf(fold, RouteOf(rows, j)) == KeyOf(fold, RouteOf(rows, i))
  }

  /** Why row i makes the whole table unacceptable, if it does. */
  ghost function RowError(rows: seq<Row>, i: nat, fold: Fold): Option<DrawError>
    requires i < |rows|
  {
    match rows[i]
    case Odd(mentions) => if mentions then Some(OddRow) else None
    case Dated(date, rowspan, highImpact, cells) =>
      if !highImpact then None
      else if date.None? then Some(BadDate)
      else if !Spans(rows[i]) then Some(BadRowspan)
      else RouteError(rows, i, date.value, fold)
    case Continued(highImpact, cells) =>
      if !highImpact then None
      else if DateOf(rows, i).None? then Some(NoDate)
      else RouteError(rows, i, DateOf(rows, i).value, fold)
  }

  ghost function RouteError(rows: seq<Row>, i: nat, d: Day, fold: Fold): Option<DrawError>
    requires i < |rows| && !rows[i].Odd? && rows[i].highImpact && DateOf(rows, i) == Some(d)
  {
    if TableRoute(rows[i].cells).Failure? then Some(TableRoute(rows[i].cells).error)
    else if RepeatsEarlier(rows, i, d, fold) then Some(DuplicateRoute)
    else None
  }

  ghost predicate Acceptable(rows: seq<Row>, n: nat, fold: Fold)
    requires n <= |rows|
  {
    forall i | 0 <= i < n :: RowError(rows, i, fold) == None
  }

  /** The routes of the draw of date d among the first n rows, in row order. */
  function RoutesOf(rows: seq<Row>, n: nat, d: Day): seq<SelectionRoute>
    requires n <= |rows|
  {
    if n == 0 then []
    else RoutesOf(rows, n - 1, d) + if Lands(rows, n - 1, d) then [RouteOf(rows, n - 1)] else []
  }

  /** The keys of the routes that the first n rows give to date d. */
  function KeysOf(rows: seq<Row>, n: nat, d: Day, fold: Fold): set<(string, string)>
    requires n <= |rows|
  {
    if n == 0 then {}
    else KeysOf(rows, n - 1, d, fold) + if Lands(rows, n - 1, d) then {KeyOf(fold, RouteOf(rows, n - 1))} else {}
  }

  lemma {:induction false} KeysOfMeans(rows: seq<Row>, n: nat, d: Day, k: (string, string), fold: Fold)
    requires n <= |rows|
    ensures k in KeysOf(rows, n, d, fold) <==>
      exists j: nat :: j < n && Lands(rows, j, d) && KeyOf(fold, RouteOf(rows, j)) == k
  {
    if n > 0 { KeysOfMeans(rows, n - 1, d, k, fold); }
  }

  function Seen(keys: map<Day, set<(string, string)>>, d: Day): set<(string, string)> {
    if d in keys then keys[d] else {}
  }

  ghost predicate KeysAre(keys: map<Day, set<(string, string)>>, rows: seq<Row>, n: nat, fold: Fold)
    requires n <= |rows|
  {
    forall d: Day :: Seen(keys, d) == KeysOf(rows, n, d, fold)
  }

  ghost predicate GroupsAre(grouped: map<Day, seq<SelectionRoute>>, rows: seq<Row>, n: nat)
    requires n <= |rows|
  {
    forall d: Day :: (d in grouped <==> RoutesOf(rows, n, d) != [])
      && (d in grouped ==> grouped[d] == RoutesOf(rows, n, d))
  }

  /** A row that lands in no draw leaves the groups as they are. */
  lemma {:induction false} NothingLands(
      grouped: map<Day, seq<SelectionRoute>>, keys: map<Day, set<(string, string)>>, rows: seq<Row>, i: nat,
      fold: Fold)
    requires i < |rows| && GroupsAre(grouped, rows, i) && KeysAre(keys, rows, i, fold)
    requires forall d: Day :: !Lands(rows, i, d)
    ensures GroupsAre(grouped, rows, i + 1) && KeysAre(keys, rows, i + 1, fold)
  {
  }

  lemma {:induction false} OneLands(
      grouped: map<Day, seq<SelectionRoute>>, keys: map<Day, set<(string, string)>>, rows: seq<Row>, i: nat, d: Day,
      fold: Fold)
    requires i < |rows| && GroupsAre(grouped, rows, i) && KeysAre(keys, rows, i, fold) && Lands(rows, i, d)
    ensures GroupsAre(grouped[d := (if d in grouped then grouped[d] else []) + [RouteOf(rows, i)]], rows, i + 1)
    ensures KeysAre(keys[d := Seen(keys, d) + {KeyOf(fold, RouteOf(rows, i))}], rows, i + 1, fold)
    ensures RepeatsEarlier(rows, i, d, fold) <==> KeyOf(fold, RouteOf(rows, i)) in Seen(keys, d)
  {
    KeysOfMeans(rows, i, d, KeyOf(fold, RouteOf(rows, i)), fold);
    var after := keys[d := Seen(keys, d) + {KeyOf(fold, RouteOf(rows, i))}];
    forall e: Day ensures Seen(after, e) == KeysOf(rows, i + 1, e, fold) {
      assert Seen(keys, e) == KeysOf(rows, i, e, fold);
    }
  }

  /** The error is the one of the first unacceptable row. */
  ghost predicate FirstError(rows: seq<Row>, e: DrawError, fold: Fold) {
    exists i: nat :: i < |rows| && Acceptable(rows, i, fold) && RowError(rows, i, fold) == Some(e)
  }

  lemma {:induction false} Rejects(rows: seq<Row>, i: nat, e: DrawError, fold: Fold)
    requires i < |rows| && Acceptable(rows, i, fold) && RowError(rows, i, fold) == Some(e)
    ensures FirstError(rows, e, fold) && !Acceptable(rows, |rows|, fold)
  {
  }

  method ParseTableDraws(rows: seq<Row>, fold: Fold) returns (r: Result<map<Day, seq<SelectionRoute>>, DrawError>)
    ensures r.Success? <==> Acceptable(rows, |rows|, fold)
    ensures r.Failure? ==> FirstError(rows, r.error, fold)
    ensures r.Success? ==> GroupsAre(r.value, rows, |rows|)
  {
    var grouped: map<Day, seq<SelectionRoute>>, keys: map<Day, set<(string, string)>> := map[], map[];
    var currentDate: Option<Day>, remaining := None, 0;
    for i := 0 to |rows|
      invariant Carried(rows, i, currentDate, remaining)
      invariant Acceptable(rows, i, fold)
      invariant GroupsAre(grouped, rows, i)
      invariant KeysAre(keys, rows, i, fold)
    {
      var row := rows[i];
      match row {
        case Dated(date, rowspan, highImpact, cells) =>
          if date.None? || rowspan.None? || rowspan.value <= 0 {
            currentDate, remaining := None, 0;
            if highImpact {
              Rejects(rows, i, if date.None? then BadDate else BadRowspan, fold);
              return Failure(if date.None? then BadDate else BadRowspan);
            }
            NothingLands(grouped, keys, rows, i, fold);
            continue;
          }
          currentDate, remaining := date, rowspan.value - 1;
        case Continued(_, _) =>
          if remaining <= 0 { currentDate := None; } else { remaining := remaining - 1; }
        case Odd(mentions) =>
          if remaining > 0 { remaining := remaining - 1; }
          if mentions {
            Rejects(rows, i, OddRow, fold);
            return Failure(OddRow);
          }
          NothingLands(grouped, keys, rows, i, fold);
          continue;
      }
      assert currentDate == DateOf(rows, i);
      if !row.highImpact {
        NothingLands(grouped, keys, rows, i, fold);
        continue;
      }
      if currentDate.None? {
        Rejects(rows, i, NoDate, fold);
        return Failure(NoDate);
      }
      var d := currentDate.value;
      var route := TableRoute(row.cells);
      if route.Failure? {
        Rejects(rows, i, route.error, fold);
        return Failure(route.error);
      }
      OneLands(grouped, keys, rows, i, d, fold);
      var key := KeyOf(fold, route.value);
      if key in Seen(keys, d) {
        Rejects(rows, i, DuplicateRoute, fold);
        return Failure(DuplicateRoute);
      }
      keys := keys[d := Seen(keys, d) + {key}];
      grouped := grouped[d := (if d in grouped then grouped[d] else []) + [route.value]];
    }
    r := Success(grouped);
  }

  /* ---------- what the accepted draws say about the rows ---------- */

  /** Row p is the last dated row before row i. */
  ghost predicate Precedes(rows: seq<Row>, p: nat, i: nat) {
    p < i < |rows| && rows[p].Dated? && forall k | p < k < i :: !rows[k].Dated?
  }

  /** A four-cell row has date d exactly when the last five-cell row before it has that date and spans down to it. */
  lemma {:induction false} SpanRule(rows: seq<Row>, i: nat, d: Day)
    requires i < |rows| && !rows[i].Dated?
    ensures DateOf(rows, i) == Some(d) <==>
      exists p: nat :: Precedes(rows, p, i) && Spans(rows[p]) && rows[p].date == Some(d)
        && i - p < rows[p].rowspan.value
  {
    var last := LastDated(rows, i);
    if last.Some? { assert Precedes(rows, last.value, i); }
  }

  /** A five-cell row has its own date when its rowspan is positive. */
  lemma {:induction false} OwnDate(rows: seq<Row>, i: nat, d: Day)
    requires i < |rows| && rows[i].Dated?
    ensures DateOf(rows, i) == Some(d) <==>
      rows[i].date == Some(d) && rows[i].rowspan.Some? && rows[i].rowspan.value > 0
  {
  }

  /** The cells name selection factors, a well-formed score and a positive or an inexact number. */
  predicate GoodCells(c: Cells) {
    && c.factors != "" && c.scoreMatches
    && (c.count.FewerThan? || (c.count.Digits? && c.count.number.Some? && c.count.number.value > 0))
  }

  /** The route that good cells announce. */
  predicate Announces(c: Cells, route: SelectionRoute) {
    && route.factors == c.factors && route.score == c.score && route.invitations == c.invitations
    && (if c.count.FewerThan? then route.count.None?
        else c.count.Digits? && route.count.Some? && c.count.number == Some(route.count.value))
  }

  lemma {:induction false} CellsGood(c: Cells)
    ensures TableRoute(c).Success? <==> GoodCells(c)
    ensures TableRoute(c).Success? ==> Announces(c, TableRoute(c).value)
  {
  }

  /** A high impact row of date d. */
  predicate HighImpactOn(rows: seq<Row>, i: nat, d: Day)
    requires i < |rows|
  {
    !rows[i].Odd? && rows[i].highImpact && DateOf(rows, i) == Some(d)
  }

  /** Factors and score of two rows are the same up to case. */
  predicate SameKey(rows: seq<Row>, i: nat, j: nat, fold: Fold)
    requires i < |rows| && j < |rows| && !rows[i].Odd? && !rows[j].Odd?
  {
    fold(rows[i].cells.factors) == fold(rows[j].cells.factors) && fold(rows[i].cells.score) == fold(rows[j].cells.score)
  }

  /**
   * A row of another width does not mention the draw type; a high impact row has
   * a date and good cells and repeats no earlier row of that date.
   */
  ghost predicate GoodRow(rows: seq<Row>, i: nat, fold: Fold)
    requires i < |rows|
  {
    if rows[i].Odd? then !rows[i].mentions
    else rows[i].highImpact ==>
      && DateOf(rows, i).Some? && GoodCells(rows[i].cells)
      && forall j: nat | j < i && HighImpactOn(rows, j, DateOf(rows, i).value) :: !SameKey(rows, j, i, fold)
  }

  lemma {:induction false} LandsMeans(rows: seq<Row>, i: nat, d: Day)
    requires i < |rows|
    ensures Lands(rows, i, d) <==> HighImpactOn(rows, i, d) && GoodCells(rows[i].cells)
    ensures Lands(rows, i, d) ==> Announces(rows[i].cells, RouteOf(rows, i))
  {
    if !rows[i].Odd? { CellsGood(rows[i].cells); }
  }

  lemma {:induction false} RepeatsMeans(rows: seq<Row>, i: nat, d: Day, fold: Fold)
    requires i < |rows| && Lands(rows, i, d) && forall j: nat | j < i :: GoodRow(rows, j, fold)
    ensures RepeatsEarlier(rows, i, d, fold) <==>
      exists j: nat :: j < i && HighImpactOn(rows, j, d) && SameKey(rows, j, i, fold)
  {
    LandsMeans(rows, i, d);
    forall j: nat | j < i ensures Lands(rows, j, d) <==> HighImpactOn(rows, j, d) {
      LandsMeans(rows, j, d);
      assert GoodRow(rows, j, fold);
    }
    forall j: nat | j < i && Lands(rows, j, d)
      ensures KeyOf(fold, RouteOf(rows, j)) == KeyOf(fold, RouteOf(rows, i)) <==> SameKey(rows, j, i, fold)
    {
      LandsMeans(rows, j, d);
    }
  }

  lemma {:induction false} OneRowGood(rows: seq<Row>, i: nat, fold: Fold)
    requires i < |rows| && forall j: nat | j < i :: GoodRow(rows, j, fold)
    ensures RowError(rows, i, fold) == None <==> GoodRow(rows, i, fold)
  {
    if !rows[i].Odd? {
      CellsGood(rows[i].cells);
      if DateOf(rows, i).Some? {
        LandsMeans(rows, i, DateOf(rows, i).value);
        if Lands(rows, i, DateOf(rows, i).value) { RepeatsMeans(rows, i, DateOf(rows, i).value, fold); }
      }
    }
  }

  /** A table is accepted exactly when all its rows are good. */
  lemma {:induction false} TableAcceptedIff(rows: seq<Row>, n: nat, fold: Fold)
    requires n <= |rows|
    ensures Acceptable(rows, n, fold) <==> forall i: nat | i < n :: GoodRow(rows, i, fold)
  {
    if n > 0 {
      TableAcceptedIff(rows, n - 1, fold);
      if forall j: nat | j < n - 1 :: GoodRow(rows, j, fold) {
        OneRowGood(rows, n - 1, fold);
      }
      assert Acceptable(rows, n, fold) <==> Acceptable(rows, n - 1, fold) && RowError(rows, n - 1, fold) == None;
    }
  }

  /** The first cause, in this order, for which a row with a date is bad. */
  predicate BadCells(c: Cells, e: DrawError) {
    match e
    case BlankFactors => c.factors == ""
    case BadScore => c.factors != "" && !c.scoreMatches
    case BadCount => c.factors != "" && c.scoreMatches && !GoodCells(c)
    case _ => false
  }

  /** The error of the first bad row tells why it is bad. */
  ghost predicate BadRow(rows: seq<Row>, i: nat, e: DrawError, fold: Fold)
    requires i < |rows|
  {
    match e
    case OddRow => rows[i].Odd? && rows[i].mentions
    case BadDate => rows[i].Dated? && rows[i].highImpact && rows[i].date.None?
    case BadRowspan =>
      && rows[i].Dated? && rows[i].highImpact && rows[i].date.Some?
      && (rows[i].rowspan.None? || rows[i].rowspan.value <= 0)
    case NoDate => rows[i].Continued? && rows[i].highImpact && DateOf(rows, i).None?
    case DuplicateRoute =>
      && !rows[i].Odd? && rows[i].highImpact && DateOf(rows, i).Some? && GoodCells(rows[i].cells)
      && exists j: nat :: j < i && HighImpactOn(rows, j, DateOf(rows, i).value) && SameKey(rows, j, i, fold)
    case _ => !rows[i].Odd? && rows[i].highImpact && DateOf(rows, i).Some? && BadCells(rows[i].cells, e)
  }

  lemma {:induction false} ErrorTellsCause(rows: seq<Row>, i: nat, e: DrawError, fold: Fold)
    requires i < |rows| && Acceptable(rows, i, fold) && RowError(rows, i, fold) == Some(e)
    ensures BadRow(rows, i, e, fold)
  {
    TableAcceptedIff(rows, i, fold);
    if !rows[i].Odd? && DateOf(rows, i).Some? {
      CellsGood(rows[i].cells);
      LandsMeans(rows, i, DateOf(rows, i).value);
      if Lands(rows, i, DateOf(rows, i).value) { RepeatsMeans(rows, i, DateOf(rows, i).value, fold); }
    }
  }

  /** In an accepted table no row that announces a high impact draw is lost. */
  lemma {:induction false} EveryHighImpactRowLands(rows: seq<Row>, i: nat, fold: Fold)
    requires Acceptable(rows, |rows|, fold) && i < |rows|
    ensures rows[i].Odd? ==> !rows[i].mentions
    ensures !rows[i].Odd? && rows[i].highImpact ==> DateOf(rows, i).Some? && Lands(rows, i, DateOf(rows, i).value)
  {
    assert RowError(rows, i, fold) == None;
  }

  lemma {:induction false} DrawsOnlyGrow(rows: seq<Row>, m: nat, n: nat, d: Day)
    requires m <= n <= |rows|
    ensures RoutesOf(rows, m, d) <= RoutesOf(rows, n, d)
  {
    if m < n { DrawsOnlyGrow(rows, m, n - 1, d); }
  }

  /** The place of a row's route in its draw: behind those of the earlier rows of the same date. */
  function PlaceOf(rows: seq<Row>, i: nat, d: Day): nat
    requires i < |rows|
  {
    |RoutesOf(rows, i, d)|
  }

  lemma {:induction false} RowKeepsItsPlace(rows: seq<Row>, i: nat, d: Day)
    requires i < |rows| && Lands(rows, i, d)
    ensures PlaceOf(rows, i, d) < |RoutesOf(rows, |rows|, d)|
    ensures RoutesOf(rows, |rows|, d)[PlaceOf(rows, i, d)] == RouteOf(rows, i)
  {
    DrawsOnlyGrow(rows, i + 1, |rows|, d);
  }

  /** Every route of a draw comes from exactly one row. */
  lemma {:induction false} RouteHasItsRow(rows: seq<Row>, n: nat, d: Day, k: nat) returns (i: nat)
    requires n <= |rows| && k < |RoutesOf(rows, n, d)|
    ensures i < n && Lands(rows, i, d) && PlaceOf(rows, i, d) == k && RoutesOf(rows, n, d)[k] == RouteOf(rows, i)
    ensures forall j: nat | j < n && Lands(rows, j, d) && PlaceOf(rows, j, d) == k :: j == i
  {
    if k < |RoutesOf(rows, n - 1, d)| {
      i := RouteHasItsRow(rows, n - 1, d, k);
    } else {
      i := n - 1;
      forall j: nat | j < i && Lands(rows, j, d) ensures PlaceOf(rows, j, d) < k {
        DrawsOnlyGrow(rows, j + 1, i, d);
      }
    }
  }

  /** No two routes of an accepted draw have the same key. */
  lemma {:induction false} KeysDiffer(rows: seq<Row>, d: Day, fold: Fold, k: nat, l: nat)
    requires Acceptable(rows, |rows|, fold) && k < l < |RoutesOf(rows, |rows|, d)|
    ensures var one, other := RoutesOf(rows, |rows|, d)[k], RoutesOf(rows, |rows|, d)[l];
            fold(one.factors) != fold(other.factors) || fold(one.score) != fold(other.score)
  {
    var i := RouteHasItsRow(rows, |rows|, d, k);
    var j := RouteHasItsRow(rows, |rows|, d, l);
    if j < i { DrawsOnlyGrow(rows, j, i, d); }
    assert i < j;
    assert RowError(rows, j, fold) == None;
    assert !RepeatsEarlier(rows, j, d, fold);
  }

  /* ---------- totals ---------- */

  function SumOfCounts(routes: seq<SelectionRoute>): nat {
    if routes == [] then 0
    else
      var count := routes[|routes| - 1].count;
      SumOfCounts(routes[..|routes| - 1]) + if count.Some? then count.value else 0
  }

  function TotalInvitations(routes: seq<SelectionRoute>): Option<nat> {
    if exists i :: 0 <= i < |routes| && routes[i].count.None? then None else Some(SumOfCounts(routes))
  }

  /** The invitations the first n rows announce for date d. */
  function InvitationsIn(rows: seq<Row>, n: nat, d: Day): nat
    requires n <= |rows|
  {
    if n == 0 then 0
    else
      var last := if Lands(rows, n - 1, d) then RouteOf(rows, n - 1).count else None;
      InvitationsIn(rows, n - 1, d) + if last.Some? then last.value else 0
  }

  /** A draw's total is what its rows announce, and it is absent exactly when some row of it is inexact. */
  lemma {:induction false} DrawTotal(rows: seq<Row>, d: Day)
    ensures TotalInvitations(RoutesOf(rows, |rows|, d)).None? <==>
      exists i: nat :: i < |rows| && Lands(rows, i, d) && RouteOf(rows, i).count.None?
    ensures TotalInvitations(RoutesOf(rows, |rows|, d)).Some? ==>
      TotalInvitations(RoutesOf(rows, |rows|, d)).value == InvitationsIn(rows, |rows|, d)
  {
    var routes := RoutesOf(rows, |rows|, d);
    SumByRows(rows, |rows|, d);
    if k :| 0 <= k < |routes| && routes[k].count.None? {
      var i := RouteHasItsRow(rows, |rows|, d, k);
    }
    if i: nat :| i < |rows| && Lands(rows, i, d) && RouteOf(rows, i).count.None? {
      RowKeepsItsPlace(rows, i, d);
    }
  }

  lemma {:induction false} SumByRows(rows: seq<Row>, n: nat, d: Day)
    requires n <= |rows|
    ensures SumOfCounts(RoutesOf(rows, n, d)) == InvitationsIn(rows, n, d)
  {
    if n > 0 {
      SumByRows(rows, n - 1, d);
      if Lands(rows, n - 1, d) {
        assert RoutesOf(rows, n, d)[..|RoutesOf(rows, n, d)| - 1] == RoutesOf(rows, n - 1, d);
      } else {
        assert RoutesOf(rows, n, d) == RoutesOf(rows, n - 1, d);
      }
    }
  }
}
