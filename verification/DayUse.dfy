/** The rolling booking window of one facility and slot. */
module DayUse {
  import opened Prelude
  import opened IsoTime
  import opened Calendar
  import opened Reservations

  datatype FacilityData = FacilityData(
    name: string, daysAhead: nat, openingHour: nat, bookingDays: map<nat, bool>, holidays: set<Day>)

  predicate WellFormed(f: FacilityData) {
    f.daysAhead <= 31 && f.openingHour <= 23 && f.bookingDays.Keys == {1, 2, 3, 4, 5, 6, 7}
  }

  type Facility = f: FacilityData | WellFormed(f)
    witness FacilityData("", 0, 0, map[1 := true, 2 := true, 3 := true, 4 := true, 5 := true, 6 := true, 7 := true], {})

  datatype Request = Request(parkId: string, slot: Slot, passLimit: nat)

  datatype Availability = Available | Unavailable | Unknown

  datatype BookingState = NotRequired | PreOpen | Bookable

  datatype Entry = Entry(id: string, date: Day, availability: Availability, state: BookingState, max: nat)

  datatype BuildError = WindowMismatch | MissingSlot | OverLimit | OutsideWindow

  /* ---------- times of one reservation, as wall clock in the provider's zone ---------- */

  const MINUTE := 60000000
  const HOUR := 3600000000
  const DAYLONG := 86400000000

  /** Minutes after midnight at which a slot starts and ends. */
  function SlotWindow(parkId: string, slot: Slot): (nat, nat) {
    if parkId == "0015" then
      match slot
      case AM => (7 * 60, 12 * 60)
      case PM => (12 * 60, 16 * 60)
      case DAY => (7 * 60, 16 * 60)
    else
      match slot
      case AM => (7 * 60, 13 * 60)
      case PM => (13 * 60, 15 * 60 + 30)
      case DAY => (7 * 60, 15 * 60 + 30)
  }

  /** Morning and afternoon slots meet, and the all-day slot spans exactly both. */
  lemma {:induction false} SlotsShareTheDay(parkId: string)
    ensures var (opens, noon) := SlotWindow(parkId, AM);
            var (afternoon, closes) := SlotWindow(parkId, PM);
      && opens < noon == afternoon < closes < 24 * 60
      && SlotWindow(parkId, DAY) == (opens, closes)
  {
  }

  function EndsAt(parkId: string, item: ReservationSlot): int {
    WallMicros(item.date) + SlotWindow(parkId, item.slot).1 * MINUTE
  }

  predicate Ended(parkId: string, item: ReservationSlot, now: Wall) {
    WallMicros(now) >= EndsAt(parkId, item)
  }

  function BookingOpens(f: Facility, date: Day): int {
    WallMicros(date) - f.daysAhead * DAYLONG + f.openingHour * HOUR
  }

  /** Monday is 1 and Sunday is 7. */
  type Weekday = w: nat | 1 <= w <= 7 witness 1

  function WeekdayOf(ordinal: int): Weekday {
    if ordinal % 7 == 0 then 7 else ordinal % 7
  }

  function IsoWeekday(date: Day): Weekday {
    WeekdayOf(Ordinal(date))
  }

  predicate BooksOn(f: Facility, weekday: Weekday) {
    f.bookingDays[weekday]
  }

  predicate BookingDay(f: Facility, date: Day) {
    BooksOn(f, IsoWeekday(date)) || date in f.holidays
  }

  function EntryId(parkId: string, name: string, item: ReservationSlot): string {
    parkId + ":" + name + ":" + (DayText(item.date) + (":" + SlotText(item.slot)))
  }

  function EntryOf(r: Request, f: Facility, item: ReservationSlot, now: Wall): Entry {
    var id := EntryId(r.parkId, f.name, item);
    if !BookingDay(f, item.date) then Entry(id, item.date, Unknown, NotRequired, item.max)
    else if WallMicros(now) < BookingOpens(f, item.date) then Entry(id, item.date, Unknown, PreOpen, item.max)
    else if item.capacity == Full then Entry(id, item.date, Unavailable, Bookable, item.max)
    else Entry(id, item.date, Available, Bookable, item.max)
  }

  /* ---------- building the entries ---------- */

  function Days(s: seq<ReservationSlot>): set<int> {
    set i | 0 <= i < |s| :: Ordinal(s[i].date)
  }

  predicate InWindow(today: int, daysAhead: nat, day: int) {
    today <= day <= today + daysAhead
  }

  /** Today and the days ahead. */
  function Window(f: Facility, now: Wall): set<int> {
    var today := Ordinal(now);
    set day: int | today <= day <= today + f.daysAhead && InWindow(today, f.daysAhead, day)
  }

  function Matching(s: seq<ReservationSlot>, slot: Slot): seq<ReservationSlot> {
    if s == [] then []
    else
      var front, last := Matching(s[..|s| - 1], slot), s[|s| - 1];
      if last.slot == slot then front + [last] else front
  }

  /** The reservations of the requested slot that have not ended, in order. */
  function Entries(r: Request, f: Facility, items: seq<ReservationSlot>, now: Wall): seq<Entry> {
    if items == [] then []
    else
      var front, last := Entries(r, f, items[..|items| - 1], now), items[|items| - 1];
      if Ended(r.parkId, last, now) then front else front + [EntryOf(r, f, last, now)]
  }

  predicate WithinLimit(items: seq<ReservationSlot>, limit: nat) {
    forall i | 0 <= i < |items| :: items[i].max <= limit
  }

  /** The consistency of the response with the booking window of the facility. */
  predicate Consistent(r: Request, f: Facility, reservations: seq<ReservationSlot>, now: Wall) {
    && Days(reservations) == Window(f, now)
    && Days(Matching(reservations, r.slot)) == Days(reservations)
    && WithinLimit(Matching(reservations, r.slot), r.passLimit)
  }

  /** The check inside the loop can never fail: the window has been compared as a set before. */
  method BuildOpportunities(r: Request, f: Facility, reservations: seq<ReservationSlot>, now: Wall)
    returns (result: Result<seq<Entry>, BuildError>)
    ensures result.Success? <==> Consistent(r, f, reservations, now)
    ensures result.Success? ==> result.value == Entries(r, f, Matching(reservations, r.slot), now)
    ensures result == Failure(WindowMismatch) <==> Days(reservations) != Window(f, now)
    ensures result == Failure(MissingSlot) <==>
      Days(reservations) == Window(f, now) && Days(Matching(reservations, r.slot)) != Days(reservations)
    ensures result != Failure(OutsideWindow)
  {
    var today, latest := Ordinal(now), Ordinal(now) + f.daysAhead;
    if Days(reservations) != Window(f, now) { return Failure(WindowMismatch); }
    var matching := Matching(reservations, r.slot);
    if Days(matching) != Days(reservations) { return Failure(MissingSlot); }
    if !WithinLimit(matching, r.passLimit) { return Failure(OverLimit); }
    var entries: seq<Entry> := [];
    for i := 0 to |matching|
      invariant entries == Entries(r, f, matching[..i], now)
    {
      var item := matching[i];
      assert Ordinal(item.date) in Days(matching);
      assert matching[..i + 1][..i] == matching[..i];
      if !(today <= Ordinal(item.date) <= latest) { return Failure(OutsideWindow); }
      if Ended(r.parkId, item, now) { continue; }
      entries := entries + [EntryOf(r, f, item, now)];
    }
    assert matching[..|matching|] == matching;
    result := Success(entries);
  }

  /* ---------- the window the entries cover ---------- */

  lemma {:induction false} MidnightMicros(d: Day)
    ensures WallMicros(d) == Ordinal(d) * DAYLONG
  {
  }

  lemma {:induction false} NowMicros(now: Wall)
    ensures Ordinal(now) * DAYLONG <= WallMicros(now) < (Ordinal(now) + 1) * DAYLONG
  {
  }

  /** Slots of later days never have ended, slots of earlier days always have. */
  lemma {:induction false} OnlyTodayCanEnd(parkId: string, item: ReservationSlot, now: Wall)
    ensures Ordinal(item.date) > Ordinal(now) ==> !Ended(parkId, item, now)
    ensures Ordinal(item.date) < Ordinal(now) ==> Ended(parkId, item, now)
  {
    MidnightMicros(item.date);
    NowMicros(now);
    assert 0 < SlotWindow(parkId, item.slot).1 * MINUTE < DAYLONG;
  }

  /** Whether today's slot is over. */
  predicate TodayEnded(r: Request, now: Wall) {
    WallMicros(now) >= Ordinal(now) * DAYLONG + SlotWindow(r.parkId, r.slot).1 * MINUTE
  }

  predicate Ascending(items: seq<ReservationSlot>) {
    forall i, j | 0 <= i < j < |items| :: Ordinal(items[i].date) < Ordinal(items[j].date)
  }

  predicate DatesAscend(entries: seq<Entry>) {
    forall i, j | 0 <= i < j < |entries| :: Ordinal(entries[i].date) < Ordinal(entries[j].date)
  }

  lemma {:induction false} EntriesSnoc(r: Request, f: Facility, items: seq<ReservationSlot>, now: Wall)
    requires items != []
    ensures var front, last := Entries(r, f, items[..|items| - 1], now), items[|items| - 1];
            var all := Entries(r, f, items, now);
      && front <= all
      && all == if Ended(r.parkId, last, now) then front else front + [EntryOf(r, f, last, now)]
  {
  }

  /** The entry at k stands for a reservation that has not ended. */
  lemma {:induction false} EntrySource(
      r: Request, f: Facility, items: seq<ReservationSlot>, now: Wall, k: nat) returns (i: nat)
    requires k < |Entries(r, f, items, now)|
    ensures i < |items| && !Ended(r.parkId, items[i], now)
    ensures Entries(r, f, items, now)[k] == EntryOf(r, f, items[i], now)
  {
    var n := |items| - 1;
    EntriesSnoc(r, f, items, now);
    if k < |Entries(r, f, items[..n], now)| {
      i := EntrySource(r, f, items[..n], now, k);
    } else {
      i := n;
    }
  }

  lemma {:induction false} EntriesExtend(r: Request, f: Facility, items: seq<ReservationSlot>, now: Wall, n: nat)
    requires n < |items|
    ensures Entries(r, f, items[..n], now) <= Entries(r, f, items[..n + 1], now)
  {
    assert items[..n + 1][..n] == items[..n];
    EntriesSnoc(r, f, items[..n + 1], now);
  }

  lemma {:induction false} GrowingChain<T>(parts: seq<seq<T>>, m: nat, n: nat)
    requires m <= n < |parts| && forall i | 0 < i < |parts| :: parts[i - 1] <= parts[i]
    ensures parts[m] <= parts[n]
  {
    if m < n { GrowingChain(parts, m, n - 1); }
  }

  lemma {:induction false} EntriesGrow(r: Request, f: Facility, items: seq<ReservationSlot>, now: Wall, m: nat, n: nat)
    requires m <= n <= |items|
    ensures Entries(r, f, items[..m], now) <= Entries(r, f, items[..n], now)
  {
    var parts := seq(|items| + 1, i requires 0 <= i <= |items| => Entries(r, f, items[..i], now));
    forall i | 0 < i < |parts| ensures parts[i - 1] <= parts[i] {
      EntriesExtend(r, f, items, now, i - 1);
    }
    GrowingChain(parts, m, n);
  }

  /** Every reservation that has not ended has its entry. */
  lemma {:induction false} EntryFor(
      r: Request, f: Facility, items: seq<ReservationSlot>, now: Wall, i: nat) returns (k: nat)
    requires i < |items| && !Ended(r.parkId, items[i], now)
    ensures k < |Entries(r, f, items, now)| && Entries(r, f, items, now)[k] == EntryOf(r, f, items[i], now)
  {
    k := |Entries(r, f, items[..i], now)|;
    assert items[..i + 1][..i] == items[..i] && items[..|items|] == items;
    EntriesSnoc(r, f, items[..i + 1], now);
    EntriesGrow(r, f, items, now, i + 1, |items|);
  }

  lemma {:induction false} EntriesAscend(r: Request, f: Facility, items: seq<ReservationSlot>, now: Wall)
    requires Ascending(items)
    ensures DatesAscend(Entries(r, f, items, now))
  {
    if items != [] {
      var n := |items| - 1;
      EntriesAscend(r, f, items[..n], now);
      var front := Entries(r, f, items[..n], now);
      forall k | 0 <= k < |front| ensures Ordinal(front[k].date) < Ordinal(items[n].date) {
        var i := EntrySource(r, f, items[..n], now, k);
      }
    }
  }

  lemma {:induction false} MatchingSlot(s: seq<ReservationSlot>, slot: Slot)
    ensures forall x | x in Matching(s, slot) :: x.slot == slot && x in s
  {
    if s != [] { MatchingSlot(s[..|s| - 1], slot); }
  }

  function EntryDays(entries: seq<Entry>): set<int> {
    set k | 0 <= k < |entries| :: Ordinal(entries[k].date)
  }

  lemma {:induction false} EndedToday(r: Request, item: ReservationSlot, now: Wall)
    requires item.slot == r.slot && Ordinal(item.date) == Ordinal(now)
    ensures Ended(r.parkId, item, now) <==> TodayEnded(r, now)
  {
    MidnightMicros(item.date);
  }

  /** Whether the entries of an accepted response must cover a day. */
  predicate Expected(r: Request, f: Facility, now: Wall, day: int) {
    Ordinal(now) <= day <= Ordinal(now) + f.daysAhead && !(day == Ordinal(now) && TodayEnded(r, now))
  }

  lemma {:induction false} EndedIff(r: Request, item: ReservationSlot, now: Wall)
    requires item.slot == r.slot && Ordinal(item.date) >= Ordinal(now)
    ensures Ended(r.parkId, item, now) <==> Ordinal(item.date) == Ordinal(now) && TodayEnded(r, now)
  {
    OnlyTodayCanEnd(r.parkId, item, now);
    if Ordinal(item.date) == Ordinal(now) { EndedToday(r, item, now); }
  }

  lemma {:induction false} ExpectedIsCovered(r: Request, f: Facility, items: seq<ReservationSlot>, now: Wall, day: int)
    requires (forall x | x in items :: x.slot == r.slot) && day in Days(items) && Expected(r, f, now, day)
    ensures day in EntryDays(Entries(r, f, items, now))
  {
    var i: nat :| i < |items| && Ordinal(items[i].date) == day;
    EndedIff(r, items[i], now);
    var k := EntryFor(r, f, items, now, i);
    assert EntryOf(r, f, items[i], now).date == items[i].date;
  }

  lemma {:induction false} CoveredIsExpected(r: Request, f: Facility, items: seq<ReservationSlot>, now: Wall, day: int)
    requires (forall x | x in items :: x.slot == r.slot) && day in EntryDays(Entries(r, f, items, now))
    requires forall d | d in Days(items) :: InWindow(Ordinal(now), f.daysAhead, d)
    ensures Expected(r, f, now, day)
  {
    var entries := Entries(r, f, items, now);
    var k: nat :| k < |entries| && Ordinal(entries[k].date) == day;
    var i := EntrySource(r, f, items, now, k);
    assert EntryOf(r, f, items[i], now).date == items[i].date;
    assert Ordinal(items[i].date) in Days(items);
    EndedIff(r, items[i], now);
  }

  /**
   * The entries of an accepted response cover exactly today and the days ahead,
   * without today once its slot is over.
   */
  lemma {:induction false} WindowExact(r: Request, f: Facility, reservations: seq<ReservationSlot>, now: Wall, day: int)
    requires Consistent(r, f, reservations, now)
    ensures day in EntryDays(Entries(r, f, Matching(reservations, r.slot), now)) <==> Expected(r, f, now, day)
  {
    var items := Matching(reservations, r.slot);
    MatchingSlot(reservations, r.slot);
    assert Days(items) == Window(f, now);
    if Expected(r, f, now, day) { ExpectedIsCovered(r, f, items, now, day); }
    if day in EntryDays(Entries(r, f, items, now)) { CoveredIsExpected(r, f, items, now, day); }
  }

  /** A check finds no usable opportunity exactly when the window is today alone and its slot is over. */
  lemma {:induction false} NothingUsableIff(r: Request, f: Facility, reservations: seq<ReservationSlot>, now: Wall)
    requires Consistent(r, f, reservations, now)
    ensures Entries(r, f, Matching(reservations, r.slot), now) == [] <==> f.daysAhead == 0 && TodayEnded(r, now)
  {
    var entries := Entries(r, f, Matching(reservations, r.slot), now);
    WindowExact(r, f, reservations, now, Ordinal(now));
    WindowExact(r, f, reservations, now, Ordinal(now) + f.daysAhead);
    if entries != [] {
      var day := Ordinal(entries[0].date);
      assert day in EntryDays(entries);
      WindowExact(r, f, reservations, now, day);
    }
  }

  /* ---------- what the entries say ---------- */

  lemma {:induction false} OpeningArithmetic(today: int, now: int, lead: int, hour: nat)
    requires today * DAYLONG <= now < (today + 1) * DAYLONG && lead <= today && hour <= 23
    ensures now < lead * DAYLONG + hour * HOUR <==> lead == today && now < today * DAYLONG + hour * HOUR
  {
    if lead < today { assert (lead + 1) * DAYLONG <= today * DAYLONG; }
  }

  lemma {:induction false} OpensOn(f: Facility, date: Day)
    ensures BookingOpens(f, date) == (Ordinal(date) - f.daysAhead) * DAYLONG + f.openingHour * HOUR
  {
    MidnightMicros(date);
  }

  /** Only the last day of the window can still be closed for booking, and it is until its opening hour. */
  lemma {:induction false} PreOpenIff(r: Request, f: Facility, item: ReservationSlot, now: Wall)
    requires Ordinal(item.date) in Window(f, now) && BookingDay(f, item.date)
    ensures EntryOf(r, f, item, now).state == PreOpen <==>
      Ordinal(item.date) == Ordinal(now) + f.daysAhead
        && WallMicros(now) < Ordinal(now) * DAYLONG + f.openingHour * HOUR
  {
    NowMicros(now);
    OpensOn(f, item.date);
    OpeningArithmetic(Ordinal(now), WallMicros(now), Ordinal(item.date) - f.daysAhead, f.openingHour);
  }

  /** An available entry can be reserved within the pass limit, an unavailable one not at all. */
  lemma {:induction false} AvailabilityMeansMax(
      r: Request, f: Facility, reservations: seq<ReservationSlot>, now: Wall, k: nat)
    requires Consistent(r, f, reservations, now) && forall x | x in reservations :: Plausible(x)
    requires k < |Entries(r, f, Matching(reservations, r.slot), now)|
    ensures EntrySound(r, f, Entries(r, f, Matching(reservations, r.slot), now)[k])
  {
    var items := Matching(reservations, r.slot);
    var i := EntrySource(r, f, items, now, k);
    MatchingSlot(reservations, r.slot);
    assert items[i] in reservations && items[i].max <= r.passLimit;
    ItemEntrySound(r, f, items[i], now);
  }

  predicate EntrySound(r: Request, f: Facility, e: Entry) {
    && (e.availability == Available ==> 1 <= e.max <= r.passLimit)
    && (e.availability == Unavailable ==> e.max == 0)
    && (e.state == Bookable <==> e.availability != Unknown)
    && (e.state == NotRequired <==> !BookingDay(f, e.date))
  }

  lemma {:induction false} ItemEntrySound(r: Request, f: Facility, item: ReservationSlot, now: Wall)
    requires Plausible(item) && item.max <= r.passLimit
    ensures EntrySound(r, f, EntryOf(r, f, item, now))
  {
  }

  /** The day of the week on which a date falls, Monday being 1. */
  predicate FallsOn(date: Day, weekday: Weekday) {
    (Ordinal(date) - weekday) % 7 == 0
  }

  lemma {:induction false} OneWeekday(ordinal: int, weekday: Weekday)
    requires (ordinal - weekday) % 7 == 0
    ensures WeekdayOf(ordinal) == weekday
  {
  }

  lemma {:induction false} BookingDayMeans(f: Facility, date: Day, weekday: Weekday)
    requires FallsOn(date, weekday)
    ensures BookingDay(f, date) <==> f.bookingDays[weekday] || date in f.holidays
  {
    OneWeekday(Ordinal(date), weekday);
  }

  /** Whole hours since midnight. */
  lemma {:induction false} HoursOfDay(now: Wall, hour: nat)
    ensures WallMicros(now) < Ordinal(now) * DAYLONG + hour * HOUR <==> now.hour < hour
  {
    HoursFit(now.hour, now.minute, now.second, now.micro, hour);
    assert WallMicros(now)
        == Ordinal(now) * DAYLONG + ((now.hour * 60 + now.minute) * 60 + now.second) * 1000000 + now.micro;
  }

  lemma {:induction false} HoursFit(h: nat, m: nat, s: nat, micro: nat, hour: nat)
    requires m < 60 && s < 60 && micro < 1000000
    ensures ((h * 60 + m) * 60 + s) * 1000000 + micro < hour * HOUR <==> h < hour
  {
  }

  /** Booking of the last day of the window starts at the opening hour of today; all other days are open already. */
  predicate StillClosed(f: Facility, date: Day, now: Wall) {
    Ordinal(date) == Ordinal(now) + f.daysAhead && now.hour < f.openingHour
  }

  /** What an entry says about a reservation, on a date that falls on this weekday. */
  predicate Describes(e: Entry, r: Request, f: Facility, item: ReservationSlot, now: Wall, weekday: Weekday) {
    var books := f.bookingDays[weekday] || item.date in f.holidays;
    && e.date == item.date && e.max == item.max
    && (e.state == NotRequired <==> !books)
    && (e.state == PreOpen <==> books && StillClosed(f, item.date, now))
    && (e.availability == Available <==> books && !StillClosed(f, item.date, now) && item.capacity != Full)
    && (e.availability == Unavailable <==> books && !StillClosed(f, item.date, now) && item.capacity == Full)
  }

  lemma {:induction false} OpenMeans(f: Facility, date: Day, now: Wall)
    requires Ordinal(now) <= Ordinal(date) <= Ordinal(now) + f.daysAhead
    ensures WallMicros(now) < BookingOpens(f, date) <==> StillClosed(f, date, now)
  {
    NowMicros(now);
    OpensOn(f, date);
    OpeningArithmetic(Ordinal(now), WallMicros(now), Ordinal(date) - f.daysAhead, f.openingHour);
    HoursOfDay(now, f.openingHour);
  }

  lemma {:induction false} EntryDescribes(r: Request, f: Facility, item: ReservationSlot, now: Wall, weekday: Weekday)
    requires Ordinal(now) <= Ordinal(item.date) <= Ordinal(now) + f.daysAhead && FallsOn(item.date, weekday)
    ensures Describes(EntryOf(r, f, item, now), r, f, item, now, weekday)
  {
    BookingDayMeans(f, item.date, weekday);
    OpenMeans(f, item.date, now);
  }

  /**
   * Each entry of an accepted response describes a reservation of the requested
   * slot that is not over.
   */
  lemma {:induction false} EntriesDescribe(
      r: Request, f: Facility, reservations: seq<ReservationSlot>, now: Wall, k: nat, weekday: Weekday)
    returns (item: ReservationSlot)
    requires Consistent(r, f, reservations, now) && k < |Entries(r, f, Matching(reservations, r.slot), now)|
    requires FallsOn(Entries(r, f, Matching(reservations, r.slot), now)[k].date, weekday)
    ensures item in reservations && item.slot == r.slot && !Ended(r.parkId, item, now)
    ensures Describes(Entries(r, f, Matching(reservations, r.slot), now)[k], r, f, item, now, weekday)
  {
    var items := Matching(reservations, r.slot);
    var i := EntrySource(r, f, items, now, k);
    item := items[i];
    MatchingSlot(reservations, r.slot);
    EntryNames(r, f, item, now);
    assert Ordinal(item.date) in Days(items) && Ordinal(item.date) in Window(f, now);
    EntryDescribes(r, f, item, now, weekday);
  }

  /** When the slots end: in park 0015 at 12:00 and 16:00, elsewhere at 13:00 and 15:30. */
  predicate OverBy(parkId: string, slot: Slot, hour: nat, minute: nat) {
    if parkId == "0015" then (if slot == AM then hour >= 12 else hour >= 16)
    else if slot == AM then hour >= 13
    else hour > 15 || (hour == 15 && minute >= 30)
  }

  lemma {:induction false} MinutesFit(h: nat, m: nat, s: nat, micro: nat, minutes: nat)
    requires m < 60 && s < 60 && micro < 1000000
    ensures ((h * 60 + m) * 60 + s) * 1000000 + micro >= minutes * MINUTE <==> h * 60 + m >= minutes
  {
  }

  /** On its own day a slot is over from that time on. */
  lemma {:induction false} EndedOnItsDay(parkId: string, item: ReservationSlot, now: Wall)
    requires Ordinal(item.date) == Ordinal(now)
    ensures Ended(parkId, item, now) <==> OverBy(parkId, item.slot, now.hour, now.minute)
  {
    MidnightMicros(item.date);
    MinutesFit(now.hour, now.minute, now.second, now.micro, SlotWindow(parkId, item.slot).1);
    assert WallMicros(now)
        == Ordinal(now) * DAYLONG + ((now.hour * 60 + now.minute) * 60 + now.second) * 1000000 + now.micro;
  }

  /** Some reservation of a slot, or of any slot, is for this day. */
  predicate HasDay(s: seq<ReservationSlot>, day: int) {
    exists i :: 0 <= i < |s| && Ordinal(s[i].date) == day
  }

  predicate HasSlotOn(s: seq<ReservationSlot>, slot: Slot, day: int) {
    exists i :: 0 <= i < |s| && Ordinal(s[i].date) == day && s[i].slot == slot
  }

  lemma {:induction false} MatchingHasIff(s: seq<ReservationSlot>, slot: Slot, day: int)
    ensures day in Days(Matching(s, slot)) <==> HasSlotOn(s, slot, day)
  {
    if s != [] {
      var front, last := s[..|s| - 1], s[|s| - 1];
      MatchingHasIff(front, slot, day);
      if HasSlotOn(front, slot, day) {
        var i :| 0 <= i < |front| && Ordinal(front[i].date) == day && front[i].slot == slot;
        assert s[i] == front[i];
      }
      if last.slot == slot { DaysSnoc(Matching(front, slot), last); }
    }
  }

  lemma {:induction false} DaysSnoc(s: seq<ReservationSlot>, x: ReservationSlot)
    ensures Days(s + [x]) == Days(s) + {Ordinal(x.date)}
  {
    var all := s + [x];
    forall i | 0 <= i < |s| ensures all[i] == s[i] {
    }
    assert all[|s|] == x;
  }

  lemma {:induction false} MatchingMembers(s: seq<ReservationSlot>, slot: Slot, x: ReservationSlot)
    ensures x in Matching(s, slot) <==> x in s && x.slot == slot
  {
    if s != [] {
      MatchingMembers(s[..|s| - 1], slot, x);
      assert s == s[..|s| - 1] + [s[|s| - 1]];
    }
  }

  /**
   * A response is accepted exactly when its dates are today and the days ahead,
   * each of them has the requested slot, and no such slot is above the pass limit.
   */
  lemma {:induction false} AcceptedMeans(r: Request, f: Facility, reservations: seq<ReservationSlot>, now: Wall)
    ensures Consistent(r, f, reservations, now) <==> (
      && (forall day :: HasDay(reservations, day) <==> Ordinal(now) <= day <= Ordinal(now) + f.daysAhead)
      && (forall day | HasDay(reservations, day) :: HasSlotOn(reservations, r.slot, day))
      && (forall x | x in reservations && x.slot == r.slot :: x.max <= r.passLimit))
  {
    var items := Matching(reservations, r.slot);
    forall day ensures day in Days(reservations) <==> HasDay(reservations, day) {
    }
    forall day ensures day in Days(items) <==> HasSlotOn(reservations, r.slot, day) {
      MatchingHasIff(reservations, r.slot, day);
    }
    forall x ensures x in items <==> x in reservations && x.slot == r.slot {
      MatchingMembers(reservations, r.slot, x);
    }
    forall day ensures day in Window(f, now) <==> Ordinal(now) <= day <= Ordinal(now) + f.daysAhead {
    }
    LimitIsMembers(items, r.passLimit);
    SetsAgree(reservations, items, f, now, r.slot);
  }

  lemma {:induction false} LimitIsMembers(items: seq<ReservationSlot>, limit: nat)
    ensures WithinLimit(items, limit) <==> forall x | x in items :: x.max <= limit
  {
    if WithinLimit(items, limit) {
      forall x | x in items ensures x.max <= limit {
        var i :| 0 <= i < |items| && items[i] == x;
      }
    }
  }

  /** Equality of the sets of days, day by day. */
  lemma {:induction false} SetsAgree(
      reservations: seq<ReservationSlot>, items: seq<ReservationSlot>, f: Facility, now: Wall, slot: Slot)
    ensures Days(reservations) == Window(f, now) <==> forall day :: day in Days(reservations) <==> day in Window(f, now)
    ensures (forall day | day in Days(items) :: day in Days(reservations)) ==>
      (Days(items) == Days(reservations) <==> forall day | day in Days(reservations) :: day in Days(items))
  {
  }

  /* ---------- one entry per date ---------- */

  predicate OnePerDate(items: seq<ReservationSlot>) {
    forall i, j | 0 <= i < j < |items| :: items[i].date != items[j].date
  }

  lemma {:induction false} MatchingStaysSorted(s: seq<ReservationSlot>, slot: Slot)
    requires Sorted(s)
    ensures forall i, j | 0 <= i < j < |Matching(s, slot)| ::
      Ordinal(Matching(s, slot)[i].date) <= Ordinal(Matching(s, slot)[j].date)
  {
    if s != [] {
      var front, last := s[..|s| - 1], s[|s| - 1];
      MatchingStaysSorted(front, slot);
      MatchingSlot(front, slot);
      forall x | x in Matching(front, slot) ensures Ordinal(x.date) <= Ordinal(last.date) {
        var k :| 0 <= k < |front| && front[k] == x;
        assert !Before(last, s[k]);
      }
    }
  }

  /** With one reservation per date the entries come in strictly ascending order of their dates. */
  lemma {:induction false} EntriesInDateOrder(r: Request, f: Facility, reservations: seq<ReservationSlot>, now: Wall)
    requires Sorted(reservations) && OnePerDate(Matching(reservations, r.slot))
    ensures DatesAscend(Entries(r, f, Matching(reservations, r.slot), now))
  {
    var items := Matching(reservations, r.slot);
    MatchingStaysSorted(reservations, r.slot);
    forall i, j | 0 <= i < j < |items| ensures Ordinal(items[i].date) < Ordinal(items[j].date) {
      if Ordinal(items[i].date) == Ordinal(items[j].date) { SameOrdinalSameDay(items[i].date, items[j].date); }
    }
    EntriesAscend(r, f, items, now);
  }

  lemma {:induction false} SlotTextsDiffer(a: Slot, b: Slot)
    ensures SlotText(a) == SlotText(b) <==> a == b
  {
    assert SlotText(AM)[0] == 'A' && SlotText(PM)[0] == 'P' && SlotText(DAY)[0] == 'D';
  }

  /** Within one facility an id tells the date and the slot. */
  lemma {:induction false} IdsDifferIff(parkId: string, name: string, a: ReservationSlot, b: ReservationSlot)
    ensures EntryId(parkId, name, a) == EntryId(parkId, name, b) <==> a.date == b.date && a.slot == b.slot
  {
    SlotTextsDiffer(a.slot, b.slot);
    var lead := parkId + ":" + name + ":";
    var ta, tb := DayText(a.date) + (":" + SlotText(a.slot)), DayText(b.date) + (":" + SlotText(b.slot));
    DayTextOrder(a.date, b.date);
    assert (lead + ta)[|lead|..] == ta && (lead + tb)[|lead|..] == tb;
    assert ta[..|DayText(a.date)|] == DayText(a.date) && tb[..|DayText(b.date)|] == DayText(b.date);
    assert ta[|DayText(a.date)| + 1..] == SlotText(a.slot) && tb[|DayText(b.date)| + 1..] == SlotText(b.slot);
  }

  predicate DistinctIds(entries: seq<Entry>) {
    forall k, l | 0 <= k < l < |entries| :: entries[k].id != entries[l].id
  }

  /** No two reservations that have not ended share a date. */
  predicate UnendedDatesDiffer(r: Request, items: seq<ReservationSlot>, now: Wall) {
    forall i, j | 0 <= i < j < |items| && !Ended(r.parkId, items[i], now) && !Ended(r.parkId, items[j], now) ::
      items[i].date != items[j].date
  }

  lemma {:induction false} EntryNames(r: Request, f: Facility, item: ReservationSlot, now: Wall)
    ensures EntryOf(r, f, item, now).id == EntryId(r.parkId, f.name, item) && EntryOf(r, f, item, now).date == item.date
  {
  }

  /** An id is taken exactly when an earlier reservation that has not ended has the same date. */
  lemma {:induction false} IdTakenIff(
      r: Request, f: Facility, items: seq<ReservationSlot>, now: Wall, x: ReservationSlot)
    requires x.slot == r.slot && forall y | y in items :: y.slot == r.slot
    ensures (exists k ::
      0 <= k < |Entries(r, f, items, now)| && Entries(r, f, items, now)[k].id == EntryId(r.parkId, f.name, x))
       <==> exists i :: 0 <= i < |items| && !Ended(r.parkId, items[i], now) && items[i].date == x.date
  {
    if k: nat :| k < |Entries(r, f, items, now)| && Entries(r, f, items, now)[k].id == EntryId(r.parkId, f.name, x) {
      var i := EntrySource(r, f, items, now, k);
      EntryNames(r, f, items[i], now);
      IdsDifferIff(r.parkId, f.name, items[i], x);
    }
    if i: nat :| i < |items| && !Ended(r.parkId, items[i], now) && items[i].date == x.date {
      var k := EntryFor(r, f, items, now, i);
      EntryNames(r, f, items[i], now);
      IdsDifferIff(r.parkId, f.name, items[i], x);
    }
  }

  lemma {:induction false} IdsSnoc(entries: seq<Entry>, e: Entry)
    ensures DistinctIds(entries + [e])
      <==> DistinctIds(entries) && !exists k :: 0 <= k < |entries| && entries[k].id == e.id
  {
    var all := entries + [e];
    if DistinctIds(all) {
      forall k, l | 0 <= k < l < |entries| ensures entries[k].id != entries[l].id { assert all[k].id != all[l].id; }
      forall k | 0 <= k < |entries| ensures entries[k].id != e.id { assert all[k].id != all[|entries|].id; }
    }
  }

  lemma {:induction false} DatesSnoc(r: Request, items: seq<ReservationSlot>, x: ReservationSlot, now: Wall)
    ensures UnendedDatesDiffer(r, items + [x], now) <==> (
      && UnendedDatesDiffer(r, items, now)
      && (Ended(r.parkId, x, now) || !exists i ::
        0 <= i < |items| && !Ended(r.parkId, items[i], now) && items[i].date == x.date))
  {
    var all := items + [x];
    if UnendedDatesDiffer(r, all, now) {
      forall i, j | 0 <= i < j < |items| && !Ended(r.parkId, items[i], now) && !Ended(r.parkId, items[j], now)
        ensures items[i].date != items[j].date
      {
        assert all[i].date != all[j].date;
      }
      forall i | 0 <= i < |items| && !Ended(r.parkId, items[i], now) && !Ended(r.parkId, x, now)
        ensures items[i].date != x.date
      {
        assert all[i].date != all[|items|].date;
      }
    }
  }

  /** The snapshot has unique ids exactly when no two reservations of the slot that have not ended share a date. */
  lemma {:induction false} IdsDistinctIff(r: Request, f: Facility, items: seq<ReservationSlot>, now: Wall)
    requires forall x | x in items :: x.slot == r.slot
    ensures DistinctIds(Entries(r, f, items, now)) <==> UnendedDatesDiffer(r, items, now)
  {
    if items != [] {
      var front, last := items[..|items| - 1], items[|items| - 1];
      assert items == front + [last];
      IdsDistinctIff(r, f, front, now);
      DatesSnoc(r, front, last, now);
      IdTakenIff(r, f, front, now, last);
      EntryNames(r, f, last, now);
      IdsSnoc(Entries(r, f, front, now), EntryOf(r, f, last, now));
    }
  }

  /* ---------- when the response repeats no date ---------- */

  /** No two keys denote one date and no day repeats a slot name. */
  predicate NoRepeats(days: seq<RawDay>) {
    && (forall i, j | 0 <= i < j < |days| :: days[i].date != days[j].date)
    && (forall i | 0 <= i < |days| && days[i].slots.Some? :: NoSlotRepeats(days[i].slots.value))
  }

  predicate NoSlotRepeats(slots: seq<RawSlot>) {
    forall k, l | 0 <= k < l < |slots| :: slots[k].slot != slots[l].slot
  }

  lemma {:induction false} OfKeyConcat(a: seq<ReservationSlot>, b: seq<ReservationSlot>, date: Day, slot: Slot)
    ensures OfKey(a + b, date, slot) == OfKey(a, date, slot) + OfKey(b, date, slot)
  {
    if b == [] {
      assert a + b == a;
    } else {
      OfKeyConcat(a, b[..|b| - 1], date, slot);
      assert a + b == (a + b[..|b| - 1]) + [b[|b| - 1]];
      OfKeySnoc(a + b[..|b| - 1], b[|b| - 1], date, slot);
    }
  }

  lemma {:induction false} AtMostOnePerSlot(date: Day, slots: seq<RawSlot>, d: Day, slot: Slot)
    requires ReadSlots(date, slots).Success? && NoSlotRepeats(slots)
    ensures |OfKey(ReadSlots(date, slots).value, d, slot)| <= 1
    ensures d != date || (forall k | 0 <= k < |slots| :: slots[k].slot != Some(slot))
      ==> OfKey(ReadSlots(date, slots).value, d, slot) == []
  {
    if slots != [] {
      var n := |slots| - 1;
      AtMostOnePerSlot(date, slots[..n], d, slot);
      OfKeySnoc(ReadSlots(date, slots[..n]).value, ReadSlot(date, slots[n]).value, d, slot);
    }
  }

  lemma {:induction false} AtMostOnePerDay(days: seq<RawDay>, d: Day, slot: Slot)
    requires ReadDays(days).Success? && NoRepeats(days)
    ensures |OfKey(ReadDays(days).value, d, slot)| <= 1
    ensures (forall i | 0 <= i < |days| :: days[i].date != Some(d)) ==> OfKey(ReadDays(days).value, d, slot) == []
  {
    if days != [] {
      var n := |days| - 1;
      AtMostOnePerDay(days[..n], d, slot);
      AtMostOnePerSlot(days[n].date.value, days[n].slots.value, d, slot);
      OfKeyConcat(ReadDays(days[..n]).value, ReadDay(days[n]).value, d, slot);
    }
  }

  lemma {:induction false} TwoOfKey(s: seq<ReservationSlot>, i: nat, j: nat)
    requires i < j < |s| && s[i].date == s[j].date && s[i].slot == s[j].slot
    ensures |OfKey(s, s[i].date, s[i].slot)| >= 2
  {
    if j == |s| - 1 {
      MemberByKey(s[..j], s[i]);
      assert s[..j][i] == s[i];
    } else {
      TwoOfKey(s[..|s| - 1], i, j);
    }
  }

  lemma {:induction false} MatchingOfKey(s: seq<ReservationSlot>, date: Day, slot: Slot)
    ensures OfKey(Matching(s, slot), date, slot) == OfKey(s, date, slot)
  {
    if s != [] {
      var front, last := s[..|s| - 1], s[|s| - 1];
      MatchingOfKey(front, date, slot);
      if last.slot == slot { OfKeySnoc(Matching(front, slot), last, date, slot); }
    }
  }

  /** A response that repeats no date and no slot name gives a valid snapshot in strictly ascending order of dates. */
  lemma {:induction false} AcceptedResponse(
      r: Request, f: Facility, days: seq<RawDay>, reservations: seq<ReservationSlot>, now: Wall)
    requires ReadDays(days).Success? && SortOf(reservations, ReadDays(days).value) && NoRepeats(days)
    ensures DatesAscend(Entries(r, f, Matching(reservations, r.slot), now))
    ensures DistinctIds(Entries(r, f, Matching(reservations, r.slot), now))
  {
    var items := Matching(reservations, r.slot);
    MatchingSlot(reservations, r.slot);
    forall i, j | 0 <= i < j < |items| ensures items[i].date != items[j].date {
      if items[i].date == items[j].date {
        TwoOfKey(items, i, j);
        MatchingOfKey(reservations, items[i].date, r.slot);
        AtMostOnePerDay(days, items[i].date, r.slot);
      }
    }
    EntriesInDateOrder(r, f, reservations, now);
    IdsDistinctIff(r, f, items, now);
  }

  /**
   * Two different keys may denote one date: whatever valid slot both of them
   * hold, the response is accepted and gives two entries with one id.
   */
  lemma {:induction false} RepeatedDateRepeatsId(
      r: Request, f: Facility, date: Day, raw: RawSlot, item: ReservationSlot)
    requires ReadSlot(date, raw) == Success(item) && item.slot == r.slot && item.max <= r.passLimit && f.daysAhead == 0
    ensures ReadDays([RawDay(Some(date), Some([raw])), RawDay(Some(date), Some([raw]))]) == Success([item, item])
    ensures Sorted([item, item]) && Consistent(r, f, [item, item], date)
    ensures !DistinctIds(Entries(r, f, Matching([item, item], r.slot), date))
  {
    SlotKeepsDate(date, raw, item);
    RepeatedDay(date, raw, item);
    RepeatedIsConsistent(r, f, item, date);
    RepeatedEntries(r, f, item, date);
    BeforeTotal(item, item, item);
  }

  lemma {:induction false} SlotKeepsDate(date: Day, raw: RawSlot, item: ReservationSlot)
    requires ReadSlot(date, raw) == Success(item)
    ensures item.date == date && raw.slot == Some(item.slot)
  {
  }

  lemma {:induction false} OneSlot(date: Day, raw: RawSlot, item: ReservationSlot)
    requires ReadSlot(date, raw) == Success(item)
    ensures ReadDay(RawDay(Some(date), Some([raw]))) == Success([item])
  {
    assert [raw][..0] == [];
    assert ReadSlots(date, []) == Success([]);
    assert [] + [item] == [item];
    assert ReadSlots(date, [raw]) == Success([item]);
  }

  lemma {:induction false} RepeatedDay(date: Day, raw: RawSlot, item: ReservationSlot)
    requires ReadSlot(date, raw) == Success(item)
    ensures var day := RawDay(Some(date), Some([raw])); ReadDays([day, day]) == Success([item, item])
  {
    var day := RawDay(Some(date), Some([raw]));
    OneSlot(date, raw, item);
    assert [day][..0] == [] && [day, day][..1] == [day];
    assert [] + [item] == [item] && [item] + [item] == [item, item];
    assert ReadDays([]) == Success([]);
    assert ReadDays([day]) == Success([item]);
  }

  lemma {:induction false} RepeatedMatches(item: ReservationSlot)
    ensures Matching([item, item], item.slot) == [item, item]
  {
    assert [item, item][..1] == [item] && [item][..0] == [];
    assert Matching([item], item.slot) == [item];
  }

  lemma {:induction false} RepeatedIsConsistent(r: Request, f: Facility, item: ReservationSlot, now: Day)
    requires item.slot == r.slot && item.date == now && f.daysAhead == 0 && item.max <= r.passLimit
    ensures Consistent(r, f, [item, item], now)
  {
    var two, today := [item, item], Ordinal(now);
    RepeatedMatches(item);
    assert two[0].date == now;
    assert Days(two) == {today};
    assert Window(f, now) == {today};
  }

  lemma {:induction false} RepeatedEntries(r: Request, f: Facility, item: ReservationSlot, now: Day)
    requires item.slot == r.slot && item.date == now
    ensures !DistinctIds(Entries(r, f, Matching([item, item], r.slot), now))
  {
    RepeatedMatches(item);
    AtMidnightNothingEnded(r.parkId, item, now);
    var two := [item, item];
    assert two[0].date == two[1].date;
    IdsDistinctIff(r, f, two, now);
  }

  lemma {:induction false} AtMidnightNothingEnded(parkId: string, item: ReservationSlot, now: Day)
    requires item.date == now
    ensures !Ended(parkId, item, now)
  {
  }
}
