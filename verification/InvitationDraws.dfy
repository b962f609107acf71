/** Narrative draws, and the page's draws from both forms, newest first. */
module InvitationDraws {
  import opened Prelude
  import opened IsoTime
  import opened Calendar
  import opened DrawTable

  datatype HighImpactDraw = HighImpactDraw(date: Day, routes: seq<SelectionRoute>)

  /** A number found in running text; its digits may still not denote an integer. */
  datatype Found = Absent | Present(number: Option<int>)

  /** A list item: the candidates count, the minimum score and the text left as selection factors. */
  datatype Item = Item(candidates: Found, score: Option<string>, factors: string)

  /** A heading with what follows it up to the next heading. */
  datatype Section = Section(date: Option<Day>, mentions: bool, total: Found, items: seq<Item>)

  /* ---------- one narrative draw ---------- */

  function Decimal(n: nat): string {
    if n < 10 then [Digit(n)] else Decimal(n / 10) + [Digit(n % 10)]
  }

  /** A decimal text without leading zero. */
  lemma {:induction false} DecimalMeans(n: nat)
    ensures var text := Decimal(n); IsNumeral(text) && ValueOf(text) == n && text != [] && (n > 0 ==> text[0] != '0')
  {
    DigitMeans(n % 10);
    if n < 10 {
      DigitMeans(n);
      NumeralSnoc([], Digit(n));
      assert [] + [Digit(n)] == [Digit(n)];
    } else {
      DecimalMeans(n / 10);
      NumeralSnoc(Decimal(n / 10), Digit(n % 10));
    }
  }

  function NarrativeRoute(item: Item): Result<SelectionRoute, DrawError> {
    if item.candidates.Absent? then Failure(BadCount)
    else
      var count := Integer(item.candidates.number);
      if count.Failure? then Failure(count.error)
      else if item.factors == "" then Failure(BlankFactors)
      else Success(SelectionRoute(item.factors, if item.score.Some? then item.score.value else "N/A",
                                  Decimal(count.value), Some(count.value)))
  }

  /** The routes of all items, or the error of the first bad one. */
  function NarrativeRoutes(items: seq<Item>): (r: Result<seq<SelectionRoute>, DrawError>)
    ensures r.Success?
      ==> |r.value| == |items| && forall i | 0 <= i < |items| :: NarrativeRoute(items[i]) == Success(r.value[i])
    ensures r.Failure? ==> exists i :: 0 <= i < |items| && NarrativeRoute(items[i]) == Failure(r.error)
  {
    if items == [] then Success([])
    else
      var front := NarrativeRoutes(items[..|items| - 1]);
      if front.Failure? then front
      else
        var last := NarrativeRoute(items[|items| - 1]);
        if last.Failure? then Failure(last.error) else Success(front.value + [last.value])
  }

  /** The item states a positive number of candidates and leaves a text of factors. */
  predicate GoodItem(item: Item) {
    item.candidates.Present? && item.candidates.number.Some? && item.candidates.number.value > 0 && item.factors != ""
  }

  /** The route that a good item announces. */
  predicate Says(item: Item, route: SelectionRoute) {
    && route.factors == item.factors
    && route.score == (if item.score.Some? then item.score.value else "N/A")
    && item.candidates.Present? && route.count.Some? && item.candidates.number == Some(route.count.value)
    && IsNumeral(route.invitations) && ValueOf(route.invitations) == route.count.value
  }

  lemma {:induction false} ItemGood(item: Item)
    ensures NarrativeRoute(item).Success? <==> GoodItem(item)
    ensures NarrativeRoute(item).Success? ==> Says(item, NarrativeRoute(item).value)
  {
    if GoodItem(item) { DecimalMeans(item.candidates.number.value); }
  }

  lemma {:induction false} ItemsGood(items: seq<Item>)
    ensures NarrativeRoutes(items).Success? <==> forall i | 0 <= i < |items| :: GoodItem(items[i])
    ensures NarrativeRoutes(items).Success? ==>
      |NarrativeRoutes(items).value| == |items|
      && forall i | 0 <= i < |items| :: Says(items[i], NarrativeRoutes(items).value[i])
  {
    var r := NarrativeRoutes(items);
    forall i | 0 <= i < |items|
      ensures NarrativeRoute(items[i]).Success? <==> GoodItem(items[i])
      ensures NarrativeRoute(items[i]).Success? ==> Says(items[i], NarrativeRoute(items[i]).value)
    {
      ItemGood(items[i]);
    }
    if r.Success? {
      forall i | 0 <= i < |items| ensures GoodItem(items[i]) && Says(items[i], r.value[i]) {
        assert NarrativeRoute(items[i]) == Success(r.value[i]);
      }
    }
  }

  /** The candidates that good items state. */
  function CandidatesIn(items: seq<Item>): nat
    requires forall i | 0 <= i < |items| :: GoodItem(items[i])
  {
    if items == [] then 0
    else
      assert GoodItem(items[|items| - 1]);
      CandidatesIn(items[..|items| - 1]) + items[|items| - 1].candidates.number.value
  }

  predicate Relevant(s: Section) {
    s.date.Some? && s.mentions
  }

  function ReadSection(s: Section): Result<HighImpactDraw, DrawError>
    requires Relevant(s)
  {
    if s.total.Absent? then Failure(NoTotal)
    else if Integer(s.total.number).Failure? then Failure(BadCount)
    else if s.items == [] then Failure(NoRoutes)
    else
      var routes := NarrativeRoutes(s.items);
      if routes.Failure? then Failure(routes.error)
      else if SumOfCounts(routes.value) != Integer(s.total.number).value then Failure(TotalMismatch)
      else Success(HighImpactDraw(s.date.value, routes.value))
  }

  lemma {:induction false} CandidatesAreCounts(items: seq<Item>, routes: seq<SelectionRoute>)
    requires |routes| == |items| && forall i | 0 <= i < |items| :: GoodItem(items[i]) && Says(items[i], routes[i])
    ensures SumOfCounts(routes) == CandidatesIn(items)
  {
    if items != [] { CandidatesAreCounts(items[..|items| - 1], routes[..|routes| - 1]); }
  }

  /** A section states a positive total, has items, all of them good, and their candidates add up to the total. */
  predicate GoodSection(s: Section) {
    && s.total.Present? && s.total.number.Some? && s.total.number.value > 0 && s.items != []
    && (forall i | 0 <= i < |s.items| :: GoodItem(s.items[i]))
    && CandidatesIn(s.items) == s.total.number.value
  }

  /** The draw that a good section tells: its date, and one route per item. */
  predicate SaysAll(s: Section, draw: HighImpactDraw) {
    && s.date == Some(draw.date) && |draw.routes| == |s.items|
    && forall i | 0 <= i < |s.items| :: Says(s.items[i], draw.routes[i])
  }

  /** The checks on a section, in terms of its routes. */
  lemma {:induction false} SectionRoutes(s: Section)
    requires Relevant(s)
    ensures ReadSection(s).Success? <==>
      && s.total.Present? && s.total.number.Some? && s.total.number.value > 0 && s.items != []
      && NarrativeRoutes(s.items).Success? && SumOfCounts(NarrativeRoutes(s.items).value) == s.total.number.value
    ensures ReadSection(s).Success? ==>
      ReadSection(s).value == HighImpactDraw(s.date.value, NarrativeRoutes(s.items).value)
  {
  }

  lemma {:induction false} SectionGood(s: Section)
    requires Relevant(s)
    ensures ReadSection(s).Success? <==> GoodSection(s)
    ensures ReadSection(s).Success? ==> SaysAll(s, ReadSection(s).value)
  {
    SectionRoutes(s);
    ItemsGood(s.items);
    if NarrativeRoutes(s.items).Success? { CandidatesAreCounts(s.items, NarrativeRoutes(s.items).value); }
  }

  lemma {:induction false} AllCounted(items: seq<Item>)
    requires NarrativeRoutes(items).Success?
    ensures TotalInvitations(NarrativeRoutes(items).value) == Some(SumOfCounts(NarrativeRoutes(items).value))
  {
    var routes := NarrativeRoutes(items).value;
    forall i | 0 <= i < |routes| ensures routes[i].count.Some? {
      assert NarrativeRoute(items[i]) == Success(routes[i]);
    }
  }

  /** An accepted narrative draw announces exactly the total that its text states. */
  lemma {:induction false} NarrativeTotalIsStated(s: Section)
    requires Relevant(s) && ReadSection(s).Success?
    ensures s.total.Present? && TotalInvitations(ReadSection(s).value.routes).Some?
    ensures s.total.number == Some(TotalInvitations(ReadSection(s).value.routes).value)
  {
    AllCounted(s.items);
  }

  /* ---------- all narrative draws ---------- */

  /** Section i gives a readable draw of date d. */
  predicate Tells(sections: seq<Section>, i: nat, draw: HighImpactDraw)
    requires i < |sections|
  {
    Relevant(sections[i]) && ReadSection(sections[i]) == Success(draw)
  }

  ghost predicate Contradicts(sections: seq<Section>, i: nat, draw: HighImpactDraw)
    requires i < |sections|
  {
    exists j: nat, other: HighImpactDraw ::
      j < i && Tells(sections, j, other) && other.date == draw.date && other != draw
  }

  ghost function SectionError(sections: seq<Section>, i: nat): Option<DrawError>
    requires i < |sections|
  {
    if !Relevant(sections[i]) then None
    else if ReadSection(sections[i]).Failure? then Some(ReadSection(sections[i]).error)
    else if Contradicts(sections, i, ReadSection(sections[i]).value) then Some(Inconsistent)
    else None
  }

  ghost predicate SoundUpTo(sections: seq<Section>, n: nat)
    requires n <= |sections|
  {
    forall i | 0 <= i < n :: SectionError(sections, i) == None
  }

  function ScoreOf(item: Item): string {
    if item.score.Some? then item.score.value else "N/A"
  }

  /** Two items name the same factors, score and number. */
  predicate SameItem(item: Item, other: Item) {
    item.factors == other.factors && ScoreOf(item) == ScoreOf(other) && item.candidates == other.candidates
  }

  /** Two sections agree item by item. */
  predicate SameDraw(s: Section, t: Section) {
    |s.items| == |t.items| && forall i | 0 <= i < |s.items| :: SameItem(s.items[i], t.items[i])
  }

  lemma {:induction false} RoutesEqualIff(item: Item, other: Item)
    requires GoodItem(item) && GoodItem(other)
    ensures NarrativeRoute(item) == NarrativeRoute(other) <==> SameItem(item, other)
  {
  }

  lemma {:induction false} RouteListsEqualIff(
      items: seq<Item>, others: seq<Item>, a: seq<SelectionRoute>, b: seq<SelectionRoute>)
    requires |a| == |items| && forall i | 0 <= i < |items| :: NarrativeRoute(items[i]) == Success(a[i])
    requires |b| == |others| && forall i | 0 <= i < |others| :: NarrativeRoute(others[i]) == Success(b[i])
    ensures a == b <==> |items| == |others| && forall i | 0 <= i < |items| :: SameItem(items[i], others[i])
  {
    if |items| == |others| {
      forall i | 0 <= i < |items| ensures a[i] == b[i] <==> SameItem(items[i], others[i]) {
        ItemGood(items[i]);
        ItemGood(others[i]);
        RoutesEqualIff(items[i], others[i]);
        assert a[i] == b[i] <==> NarrativeRoute(items[i]) == NarrativeRoute(others[i]);
      }
    }
  }

  lemma {:induction false} DrawsEqualIff(s: Section, t: Section)
    requires Relevant(s) && Relevant(t) && s.date == t.date && ReadSection(s).Success? && ReadSection(t).Success?
    ensures ReadSection(s).value == ReadSection(t).value <==> SameDraw(s, t)
  {
    SectionRoutes(s);
    SectionRoutes(t);
    RouteListsEqualIff(s.items, t.items, NarrativeRoutes(s.items).value, NarrativeRoutes(t.items).value);
  }

  /** A relevant section is good and agrees with every earlier one of its date. */
  ghost predicate FitsIn(sections: seq<Section>, i: nat)
    requires i < |sections|
  {
    sections[i].date.Some? && sections[i].mentions ==>
      && GoodSection(sections[i])
      && forall j: nat | j < i && sections[j].mentions && sections[j].date == sections[i].date ::
           SameDraw(sections[j], sections[i])
  }

  lemma {:induction false} ContradictsMeans(sections: seq<Section>, i: nat)
    requires i < |sections| && Relevant(sections[i]) && ReadSection(sections[i]).Success?
    requires forall j: nat | j < i :: FitsIn(sections, j)
    ensures Contradicts(sections, i, ReadSection(sections[i]).value) <==>
      exists j: nat :: j < i && Relevant(sections[j]) && sections[j].date == sections[i].date
                       && !SameDraw(sections[j], sections[i])
  {
    var draw := ReadSection(sections[i]).value;
    forall j: nat | j < i && Relevant(sections[j])
      ensures ReadSection(sections[j]).Success? && sections[j].date == Some(ReadSection(sections[j]).value.date)
      ensures sections[j].date == sections[i].date ==>
        (ReadSection(sections[j]).value == draw <==> SameDraw(sections[j], sections[i]))
    {
      assert FitsIn(sections, j);
      SectionGood(sections[j]);
      if sections[j].date == sections[i].date { DrawsEqualIff(sections[j], sections[i]); }
    }
    SectionGood(sections[i]);
    if j: nat :| j < i && Relevant(sections[j]) && sections[j].date == sections[i].date
                 && !SameDraw(sections[j], sections[i]) {
      assert Tells(sections, j, ReadSection(sections[j]).value);
    }
  }

  lemma {:induction false} OneSectionSound(sections: seq<Section>, i: nat)
    requires i < |sections| && forall j: nat | j < i :: FitsIn(sections, j)
    ensures SectionError(sections, i) == None <==> FitsIn(sections, i)
  {
    if Relevant(sections[i]) {
      SectionGood(sections[i]);
      if ReadSection(sections[i]).Success? { ContradictsMeans(sections, i); }
    }
  }

  /** The narrative is accepted exactly when every relevant section is good and agrees with those of its date. */
  lemma {:induction false} NarrativeAcceptedIff(sections: seq<Section>, n: nat)
    requires n <= |sections|
    ensures SoundUpTo(sections, n) <==> forall i: nat | i < n :: FitsIn(sections, i)
  {
    if n > 0 {
      NarrativeAcceptedIff(sections, n - 1);
      if forall i: nat | i < n - 1 :: FitsIn(sections, i) {
        OneSectionSound(sections, n - 1);
      }
      assert SoundUpTo(sections, n) <==> SoundUpTo(sections, n - 1) && SectionError(sections, n - 1) == None;
    }
  }

  /** Why an item is bad. */
  predicate BadItem(item: Item, e: DrawError) {
    if item.candidates.Absent? || item.candidates.number.None? || item.candidates.number.value <= 0 then e == BadCount
    else item.factors == "" && e == BlankFactors
  }

  ghost predicate HasBadItem(items: seq<Item>, e: DrawError) {
    exists k :: 0 <= k < |items| && BadItem(items[k], e)
  }

  lemma {:induction false} ItemErrorTellsCause(items: seq<Item>)
    requires NarrativeRoutes(items).Failure?
    ensures HasBadItem(items, NarrativeRoutes(items).error)
    ensures NarrativeRoutes(items).error == BadCount || NarrativeRoutes(items).error == BlankFactors
  {
    var k :| 0 <= k < |items| && NarrativeRoute(items[k]) == Failure(NarrativeRoutes(items).error);
    assert BadItem(items[k], NarrativeRoutes(items).error);
  }

  /** The error of the first check that a section fails, in terms of its routes. */
  lemma {:induction false} FailedCheck(s: Section)
    requires Relevant(s) && ReadSection(s).Failure?
    ensures var e := ReadSection(s).error;
            var stated := s.total.Present? && s.total.number.Some? && s.total.number.value > 0;
      if s.total.Absent? then e == NoTotal
      else if !stated then e == BadCount
      else if s.items == [] then e == NoRoutes
      else if NarrativeRoutes(s.items).Failure? then e == NarrativeRoutes(s.items).error
      else e == TotalMismatch && SumOfCounts(NarrativeRoutes(s.items).value) != s.total.number.value
  {
  }

  /** The first cause, in this order, for which a relevant section is bad. */
  ghost predicate BadSection(sections: seq<Section>, i: nat, e: DrawError)
    requires i < |sections|
  {
    var s := sections[i];
    s.date.Some? && s.mentions &&
    var stated := s.total.Present? && s.total.number.Some? && s.total.number.value > 0;
    match e
    case NoTotal => s.total.Absent?
    case NoRoutes => stated && s.items == []
    case BadCount =>
      || (s.total.Present? && !stated)
      || (stated && HasBadItem(s.items, e))
    case BlankFactors => stated && HasBadItem(s.items, e)
    case TotalMismatch =>
      && stated && (forall k | 0 <= k < |s.items| :: GoodItem(s.items[k]))
      && CandidatesIn(s.items) != s.total.number.value
    case Inconsistent =>
      && GoodSection(s)
      && exists j: nat :: j < i && sections[j].mentions && sections[j].date == s.date && !SameDraw(sections[j], s)
    case _ => false
  }

  lemma {:induction false} ReadingErrorTellsCause(s: Section)
    requires Relevant(s) && ReadSection(s).Failure?
    ensures BadSection([s], 0, ReadSection(s).error) && ReadSection(s).error != Inconsistent
  {
    FailedCheck(s);
    ItemsGood(s.items);
    if NarrativeRoutes(s.items).Failure? { ItemErrorTellsCause(s.items); }
    else { CandidatesAreCounts(s.items, NarrativeRoutes(s.items).value); }
  }

  lemma {:induction false} SectionErrorTellsCause(sections: seq<Section>, i: nat, e: DrawError)
    requires i < |sections| && SoundUpTo(sections, i) && SectionError(sections, i) == Some(e)
    ensures BadSection(sections, i, e)
  {
    var s := sections[i];
    if ReadSection(s).Success? {
      NarrativeAcceptedIff(sections, i);
      SectionGood(s);
      ContradictsMeans(sections, i);
    } else {
      ReadingErrorTellsCause(s);
      assert sections[i] == s;
    }
  }

  /** The draws found in the first n sections. */
  ghost predicate Collected(draws: map<Day, HighImpactDraw>, sections: seq<Section>, n: nat)
    requires n <= |sections|
  {
    && (forall d | d in draws :: draws[d].date == d && exists i: nat :: i < n && Tells(sections, i, draws[d]))
    && (forall i: nat, draw | i < n && Tells(sections, i, draw) :: draw.date in draws && draws[draw.date] == draw)
  }

  /** The error is the one of the first unacceptable section. */
  ghost predicate FirstSpoiled(sections: seq<Section>, e: DrawError) {
    exists i: nat :: i < |sections| && SoundUpTo(sections, i) && SectionError(sections, i) == Some(e)
  }

  lemma {:induction false} Spoils(sections: seq<Section>, i: nat, e: DrawError)
    requires i < |sections| && SoundUpTo(sections, i) && SectionError(sections, i) == Some(e)
    ensures FirstSpoiled(sections, e) && !SoundUpTo(sections, |sections|)
  {
  }

  lemma {:induction false} CollectOne(
      draws: map<Day, HighImpactDraw>, sections: seq<Section>, i: nat, draw: HighImpactDraw)
    requires i < |sections| && Collected(draws, sections, i) && Tells(sections, i, draw)
    ensures Contradicts(sections, i, draw) <==> draw.date in draws && draws[draw.date] != draw
    ensures SectionError(sections, i) == if Contradicts(sections, i, draw) then Some(Inconsistent) else None
  {
  }

  lemma {:induction false} CollectNext(
      draws: map<Day, HighImpactDraw>, sections: seq<Section>, i: nat, draw: HighImpactDraw)
    requires i < |sections| && Collected(draws, sections, i) && Tells(sections, i, draw)
    requires draw.date in draws ==> draws[draw.date] == draw
    ensures Collected(draws[draw.date := draw], sections, i + 1)
  {
    var after := draws[draw.date := draw];
    forall d | d in after
      ensures after[d].date == d && exists k: nat :: k < i + 1 && Tells(sections, k, after[d])
    {
      if d != draw.date { var k: nat :| k < i && Tells(sections, k, draws[d]); }
    }
    forall k: nat, other | k < i + 1 && Tells(sections, k, other)
      ensures other.date in after && after[other.date] == other
    {
      if k < i { assert draws[other.date] == other; }
    }
  }

  method ParseNarrativeDraws(sections: seq<Section>) returns (r: Result<map<Day, HighImpactDraw>, DrawError>)
    ensures r.Success? <==> SoundUpTo(sections, |sections|)
    ensures r.Failure? ==> FirstSpoiled(sections, r.error)
    ensures r.Success? ==> Collected(r.value, sections, |sections|)
  {
    var draws: map<Day, HighImpactDraw> := map[];
    for i := 0 to |sections|
      invariant SoundUpTo(sections, i) && Collected(draws, sections, i)
    {
      var section := sections[i];
      if section.date.None? || !section.mentions { continue; }
      var draw := ReadSection(section);
      if draw.Failure? {
        Spoils(sections, i, draw.error);
        return Failure(draw.error);
      }
      CollectOne(draws, sections, i, draw.value);
      if draw.value.date in draws && draws[draw.value.date] != draw.value {
        Spoils(sections, i, Inconsistent);
        return Failure(Inconsistent);
      }
      CollectNext(draws, sections, i, draw.value);
      draws := draws[draw.value.date := draw.value];
    }
    r := Success(draws);
  }

  /* ---------- both forms together ---------- */

  function FromTable(grouped: map<Day, seq<SelectionRoute>>): map<Day, HighImpactDraw> {
    map d | d in grouped :: HighImpactDraw(d, grouped[d])
  }

  method Merge(
      table: map<Day, HighImpactDraw>, narrative: map<Day, HighImpactDraw>)
    returns (draws: map<Day, HighImpactDraw>)
    ensures draws.Keys == table.Keys + narrative.Keys
    ensures forall d | d in draws :: draws[d] == if d in table then table[d] else narrative[d]
  {
    draws := table;
    var rest := narrative.Keys;
    while rest != {}
      invariant rest <= narrative.Keys && draws.Keys == table.Keys + (narrative.Keys - rest)
      invariant forall d | d in draws :: draws[d] == if d in table then table[d] else narrative[d]
      decreases rest
    {
      var d :| d in rest;
      rest := rest - {d};
      if d !in draws { draws := draws[d := narrative[d]]; }
    }
  }

  predicate NewestFirst(days: seq<Day>) {
    forall i, j | 0 <= i < j < |days| :: Ordinal(days[i]) > Ordinal(days[j])
  }

  method Latest(days: set<Day>) returns (latest: Day)
    requires days != {}
    ensures latest in days && forall d | d in days :: Ordinal(d) <= Ordinal(latest)
  {
    latest :| latest in days;
    var rest := days - {latest};
    while rest != {}
      invariant latest in days && forall d | d in days :: d in rest || Ordinal(d) <= Ordinal(latest)
      decreases rest
    {
      var d :| d in rest;
      rest := rest - {d};
      if Ordinal(d) > Ordinal(latest) { latest := d; }
    }
  }

  method SortedNewestFirst(days: set<Day>) returns (q: seq<Day>)
    ensures NewestFirst(q) && forall d :: d in q <==> d in days
  {
    q := [];
    var rest := days;
    while rest != {}
      invariant NewestFirst(q) && forall d :: d in days <==> d in rest || d in q
      invariant forall d, i | d in rest && 0 <= i < |q| :: Ordinal(d) < Ordinal(q[i])
      decreases rest
    {
      var d := Latest(rest);
      forall e | e in rest && e != d ensures Ordinal(e) < Ordinal(d) {
        if Ordinal(e) == Ordinal(d) { SameOrdinalSameDay(e, d); }
      }
      rest, q := rest - {d}, q + [d];
    }
  }

  /** The opportunity of a draw, as far as the snapshot depends on it; it is always available. */
  datatype Listing = Listing(id: string, draw: HighImpactDraw, total: Option<nat>)

  const PREFIX := "high-economic-impact-"

  function ToListing(draw: HighImpactDraw): Listing {
    Listing(PREFIX + DayText(draw.date), draw, TotalInvitations(draw.routes))
  }

  /** A date for which the table or the narrative gives a draw. */
  ghost predicate OnPage(d: Day, rows: seq<Row>, sections: seq<Section>) {
    || RoutesOf(rows, |rows|, d) != []
    || exists i: nat, draw :: i < |sections| && Tells(sections, i, draw) && draw.date == d
  }

  /** The table is authoritative; the narrative counts only for dates the table does not have. */
  ghost predicate FromPage(draw: HighImpactDraw, rows: seq<Row>, sections: seq<Section>) {
    if RoutesOf(rows, |rows|, draw.date) != [] then draw.routes == RoutesOf(rows, |rows|, draw.date)
    else exists i: nat :: i < |sections| && Tells(sections, i, draw)
  }

  /** The merged draws are exactly those of the page. */
  ghost predicate PageDraws(draws: map<Day, HighImpactDraw>, rows: seq<Row>, sections: seq<Section>) {
    forall d: Day :: (d in draws <==> OnPage(d, rows, sections))
      && (d in draws ==> draws[d].date == d && FromPage(draws[d], rows, sections))
  }

  lemma {:induction false} MergeIsPage(
      grouped: map<Day, seq<SelectionRoute>>, narrative: map<Day, HighImpactDraw>, draws: map<Day, HighImpactDraw>,
      rows: seq<Row>, sections: seq<Section>)
    requires GroupsAre(grouped, rows, |rows|) && Collected(narrative, sections, |sections|)
    requires draws.Keys == grouped.Keys + narrative.Keys
    requires forall d | d in draws :: draws[d] == if d in grouped then HighImpactDraw(d, grouped[d]) else narrative[d]
    ensures PageDraws(draws, rows, sections)
  {
    forall d: Day
      ensures (d in draws <==> OnPage(d, rows, sections))
        && (d in draws ==> draws[d].date == d && FromPage(draws[d], rows, sections))
    {
    }
  }

  predicate Ordered(listings: seq<Listing>) {
    forall i, j | 0 <= i < j < |listings| :: Ordinal(listings[i].draw.date) > Ordinal(listings[j].draw.date)
  }

  /** One listing per draw, newest first. */
  ghost predicate Lists(listings: seq<Listing>, draws: map<Day, HighImpactDraw>) {
    && Ordered(listings)
    && (forall l | l in listings :: l.draw.date in draws && l == ToListing(draws[l.draw.date]))
    && (forall d | d in draws :: exists l :: l in listings && l.draw.date == d)
  }

  method ToListings(draws: map<Day, HighImpactDraw>) returns (listings: seq<Listing>)
    requires forall d | d in draws :: draws[d].date == d
    ensures Lists(listings, draws)
  {
    var days := SortedNewestFirst(draws.Keys);
    listings := seq(|days|, i requires 0 <= i < |days| => assert days[i] in days; ToListing(draws[days[i]]));
    ListsInOrder(days, draws, listings);
  }

  lemma {:induction false} ListsInOrder(days: seq<Day>, draws: map<Day, HighImpactDraw>, listings: seq<Listing>)
    requires NewestFirst(days) && (forall d :: d in days <==> d in draws) && forall d | d in draws :: draws[d].date == d
    requires |listings| == |days| && forall k | 0 <= k < |days| :: listings[k] == ToListing(draws[days[k]])
    ensures Lists(listings, draws)
  {
    forall i, j | 0 <= i < j < |listings|
      ensures Ordinal(listings[i].draw.date) > Ordinal(listings[j].draw.date)
    {
      assert listings[i].draw.date == days[i] && listings[j].draw.date == days[j];
    }
    forall d | d in draws ensures exists l :: l in listings && l.draw.date == d {
      var k :| 0 <= k < |days| && days[k] == d;
      assert listings[k] in listings;
    }
  }

  /**
   * The page is rejected when a row or a section is unacceptable or no draw is
   * found, and otherwise gives one listing per date, newest first.
   */
  method Parse(rows: seq<Row>, sections: seq<Section>, fold: Fold) returns (r: Result<seq<Listing>, DrawError>)
    ensures r.Success? <==>
      Acceptable(rows, |rows|, fold) && SoundUpTo(sections, |sections|) && exists d: Day :: OnPage(d, rows, sections)
    ensures r.Failure? ==>
      if !Acceptable(rows, |rows|, fold) then FirstError(rows, r.error, fold)
      else if !SoundUpTo(sections, |sections|) then FirstSpoiled(sections, r.error)
      else r.error == NothingFound
    ensures r.Success? ==> exists draws :: PageDraws(draws, rows, sections) && Lists(r.value, draws)
  {
    var table := ParseTableDraws(rows, fold);
    if table.Failure? { return Failure(table.error); }
    var narrative := ParseNarrativeDraws(sections);
    if narrative.Failure? { return Failure(narrative.error); }
    var draws := Merge(FromTable(table.value), narrative.value);
    MergeIsPage(table.value, narrative.value, draws, rows, sections);
    if |draws| == 0 { return Failure(NothingFound); }
    assert exists d :: d in draws.Keys;
    var listings := ToListings(draws);
    r := Success(listings);
  }

  /** A listing of a table date has the total that its rows announce, unless some row is inexact. */
  lemma {:induction false} TableListingTotal(rows: seq<Row>, d: Day, listing: Listing)
    requires listing == ToListing(HighImpactDraw(d, RoutesOf(rows, |rows|, d)))
    ensures listing.total.None? <==> exists i: nat :: i < |rows| && Lands(rows, i, d) && rows[i].cells.count.FewerThan?
    ensures listing.total.Some? ==> listing.total.value == InvitationsIn(rows, |rows|, d)
  {
    DrawTotal(rows, d);
    forall i: nat | i < |rows| && Lands(rows, i, d)
      ensures RouteOf(rows, i).count.None? <==> rows[i].cells.count.FewerThan?
    {
      LandsMeans(rows, i, d);
    }
  }

  /** A listing of a narrative draw has the total that its section states. */
  lemma {:induction false} NarrativeListingTotal(s: Section, listing: Listing)
    requires Relevant(s) && ReadSection(s).Success? && listing == ToListing(ReadSection(s).value)
    ensures listing.total.Some? && s.total == Present(Some(listing.total.value))
  {
    NarrativeTotalIsStated(s);
  }

  /** Listings in this order have different ids, so a snapshot of them is valid. */
  lemma {:induction false} IdsAreDistinct(listings: seq<Listing>, i: nat, j: nat)
    requires Ordered(listings) && i < j < |listings|
    requires listings[i] == ToListing(listings[i].draw) && listings[j] == ToListing(listings[j].draw)
    ensures listings[i].id != listings[j].id
    ensures listings[i].id == "high-economic-impact-" + DayText(listings[i].draw.date)
  {
    var a, b := listings[i].draw.date, listings[j].draw.date;
    DayTextOrder(a, b);
    assert listings[i].id[|PREFIX|..] == DayText(a);
    assert listings[j].id[|PREFIX|..] == DayText(b);
  }
}
