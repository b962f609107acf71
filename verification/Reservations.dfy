/** The reservation response: validated day by day and slot by slot, then sorted. */
module Reservations {
  import opened Prelude
  import opened IsoTime
  import opened Calendar

  datatype Slot = AM | PM | DAY

  datatype Capacity = Full | Low | Medium | Moderate | High

  datatype CapacityText = NotText | UnknownText | Known(capacity: Capacity)

  /** The value under a slot name; `max` is absent when it is not an integer. */
  datatype RawAvailability = NotObject | Fields(capacity: CapacityText, max: Option<int>)

  /** The slot is absent when the name is none of the known ones. */
  datatype RawSlot = RawSlot(slot: Option<Slot>, availability: RawAvailability)

  /** The date is absent when the key is no ISO date, the slots when the value is no object. */
  datatype RawDay = RawDay(date: Option<Day>, slots: Option<seq<RawSlot>>)

  datatype ReservationSlot = ReservationSlot(date: Day, slot: Slot, capacity: Capacity, max: nat)

  datatype ParseError =
    | NoObject | EmptyResponse | InvalidDate | NoSlots | UnknownSlot | BadCapacity | BadMax | CapacityMaxMismatch

  function SlotText(s: Slot): string {
    match s
    case AM => "AM"
    case PM => "PM"
    case DAY => "DAY"
  }

  /* ---------- validation ---------- */

  function ReadSlot(date: Day, raw: RawSlot): Result<ReservationSlot, ParseError> {
    if raw.slot.None? then Failure(UnknownSlot)
    else if raw.availability.NotObject? then Failure(NoObject)
    else if !raw.availability.capacity.Known? then Failure(BadCapacity)
    else
      var capacity, max := raw.availability.capacity.capacity, raw.availability.max;
      if max.None? || max.value < 0 || max.value > 100 then Failure(BadMax)
      else if (capacity == Full) != (max.value == 0) then Failure(CapacityMaxMismatch)
      else Success(ReservationSlot(date, raw.slot.value, capacity, max.value))
  }

  function ReadSlots(date: Day, slots: seq<RawSlot>): Result<seq<ReservationSlot>, ParseError> {
    if slots == [] then Success([])
    else
      var front := ReadSlots(date, slots[..|slots| - 1]);
      if front.Failure? then front
      else
        var last := ReadSlot(date, slots[|slots| - 1]);
        if last.Failure? then Failure(last.error) else Success(front.value + [last.value])
  }

  function ReadDay(day: RawDay): Result<seq<ReservationSlot>, ParseError> {
    if day.date.None? then Failure(InvalidDate)
    else if day.slots.None? then Failure(NoObject)
    else if day.slots.value == [] then Failure(NoSlots)
    else ReadSlots(day.date.value, day.slots.value)
  }

  /** Everything in document order, or the first error. */
  function ReadDays(days: seq<RawDay>): Result<seq<ReservationSlot>, ParseError> {
    if days == [] then Success([])
    else
      var front := ReadDays(days[..|days| - 1]);
      if front.Failure? then front
      else
        var last := ReadDay(days[|days| - 1]);
        if last.Failure? then Failure(last.error) else Success(front.value + last.value)
  }

  /* ---------- sorting by date and slot name ---------- */

  /** The order of the names: "AM" < "DAY" < "PM". */
  function Rank(s: Slot): nat {
    match s
    case AM => 0
    case DAY => 1
    case PM => 2
  }

  predicate Before(a: ReservationSlot, b: ReservationSlot) {
    Ordinal(a.date) < Ordinal(b.date) || (a.date == b.date && Rank(a.slot) < Rank(b.slot))
  }

  predicate Sorted(s: seq<ReservationSlot>) {
    forall i, j | 0 <= i < j < |s| :: !Before(s[j], s[i])
  }

  /** The slots are ordered as their names. */
  lemma {:induction false} RankIsTextOrder(a: Slot, b: Slot)
    ensures Rank(a) < Rank(b) <==> TextLess(SlotText(a), SlotText(b))
  {
    assert "AM"[0] == 'A' && "DAY"[0] == 'D' && "PM"[0] == 'P';
    Irreflexive(SlotText(a));
  }

  /** Dates ascend, and the names of the slots of one date. */
  lemma {:induction false} SortedMeans(s: seq<ReservationSlot>, i: nat, j: nat)
    requires Sorted(s) && i < j < |s|
    ensures Ordinal(s[i].date) <= Ordinal(s[j].date)
    ensures s[i].date == s[j].date ==> !TextLess(SlotText(s[j].slot), SlotText(s[i].slot))
  {
    assert !Before(s[j], s[i]);
    RankIsTextOrder(s[j].slot, s[i].slot);
  }

  /** The subsequence of one date and slot. */
  function OfKey(s: seq<ReservationSlot>, date: Day, slot: Slot): seq<ReservationSlot> {
    if s == [] then []
    else
      var front, last := OfKey(s[..|s| - 1], date, slot), s[|s| - 1];
      if last.date == date && last.slot == slot then front + [last] else front
  }

  /** Inserts behind everything that does not come after it. */
  function Insert(s: seq<ReservationSlot>, x: ReservationSlot): seq<ReservationSlot> {
    if s == [] || !Before(x, s[|s| - 1]) then s + [x]
    else Insert(s[..|s| - 1], x) + [s[|s| - 1]]
  }

  lemma {:induction false} InsertMembers(s: seq<ReservationSlot>, x: ReservationSlot, y: ReservationSlot)
    ensures y in Insert(s, x) <==> y == x || y in s
  {
    if s != [] && Before(x, s[|s| - 1]) {
      InsertMembers(s[..|s| - 1], x, y);
      assert s == s[..|s| - 1] + [s[|s| - 1]];
    }
  }

  lemma {:induction false} BeforeTotal(a: ReservationSlot, b: ReservationSlot, c: ReservationSlot)
    ensures !Before(b, a) && !Before(c, b) ==> !Before(c, a)
    ensures Before(a, b) ==> !Before(b, a)
  {
    if Ordinal(a.date) == Ordinal(b.date) { SameOrdinalSameDay(a.date, b.date); }
    if Ordinal(b.date) == Ordinal(c.date) { SameOrdinalSameDay(b.date, c.date); }
  }

  lemma {:induction false} InsertSorts(s: seq<ReservationSlot>, x: ReservationSlot)
    requires Sorted(s)
    ensures Sorted(Insert(s, x))
  {
    if s == [] {
    } else if !Before(x, s[|s| - 1]) {
      forall i | 0 <= i < |s| ensures !Before(x, s[i]) { BeforeTotal(s[i], s[|s| - 1], x); }
    } else {
      var front, last := s[..|s| - 1], s[|s| - 1];
      InsertSorts(front, x);
      var inserted := Insert(front, x);
      forall i | 0 <= i < |inserted| ensures !Before(last, inserted[i]) {
        InsertMembers(front, x, inserted[i]);
        BeforeTotal(x, last, last);
        if inserted[i] in front { var k :| 0 <= k < |front| && front[k] == inserted[i]; }
      }
    }
  }

  lemma {:induction false} OfKeySnoc(s: seq<ReservationSlot>, x: ReservationSlot, date: Day, slot: Slot)
    ensures OfKey(s + [x], date, slot) == OfKey(s, date, slot) + if x.date == date && x.slot == slot then [x] else []
  {
    assert (s + [x])[..|s|] == s;
  }

  /** Insertion puts an element behind its equals and keeps the others in order. */
  lemma {:induction false} InsertIsStable(s: seq<ReservationSlot>, x: ReservationSlot, date: Day, slot: Slot)
    ensures OfKey(Insert(s, x), date, slot) == OfKey(s + [x], date, slot)
  {
    if s != [] && Before(x, s[|s| - 1]) {
      var front, last := s[..|s| - 1], s[|s| - 1];
      assert s == front + [last];
      InsertIsStable(front, x, date, slot);
      OfKeySnoc(Insert(front, x), last, date, slot);
      OfKeySnoc(front, x, date, slot);
      OfKeySnoc(front, last, date, slot);
      OfKeySnoc(s, x, date, slot);
    }
  }

  /** The response in sorted order keeps, for every date and slot, the entries and their order. */
  ghost predicate SortOf(result: seq<ReservationSlot>, items: seq<ReservationSlot>) {
    Sorted(result) && forall date: Day, slot: Slot :: OfKey(result, date, slot) == OfKey(items, date, slot)
  }

  lemma {:induction false} SortOneMore(q: seq<ReservationSlot>, items: seq<ReservationSlot>, x: ReservationSlot)
    requires SortOf(q, items)
    ensures SortOf(Insert(q, x), items + [x])
  {
    InsertSorts(q, x);
    forall date: Day, slot: Slot ensures OfKey(Insert(q, x), date, slot) == OfKey(items + [x], date, slot) {
      InsertIsStable(q, x, date, slot);
      OfKeySnoc(q, x, date, slot);
      OfKeySnoc(items, x, date, slot);
    }
  }

  method SortByDateAndSlot(items: seq<ReservationSlot>) returns (q: seq<ReservationSlot>)
    ensures SortOf(q, items)
  {
    q := [];
    for i := 0 to |items|
      invariant SortOf(q, items[..i])
    {
      SortOneMore(q, items[..i], items[i]);
      assert items[..i] + [items[i]] == items[..i + 1];
      q := Insert(q, items[i]);
    }
    assert items[..|items|] == items;
  }

  method ParseReservations(response: Option<seq<RawDay>>) returns (r: Result<seq<ReservationSlot>, ParseError>)
    ensures response.None? ==> r == Failure(NoObject)
    ensures response == Some([]) ==> r == Failure(EmptyResponse)
    ensures response.Some? && response.value != [] ==>
      match ReadDays(response.value)
      case Failure(e) => r == Failure(e)
      case Success(items) => r.Success? && SortOf(r.value, items)
  {
    if response.None? { return Failure(NoObject); }
    var days := response.value;
    if |days| == 0 { return Failure(EmptyResponse); }
    var reservations: seq<ReservationSlot> := [];
    for i := 0 to |days|
      invariant ReadDays(days[..i]) == Success(reservations)
    {
      var day := days[i];
      ghost var before := reservations;
      if ReadDay(day).Failure? { FirstBadDay(days, i); }
      if day.date.None? { return Failure(InvalidDate); }
      if day.slots.None? { return Failure(NoObject); }
      var slots := day.slots.value;
      if |slots| == 0 { return Failure(NoSlots); }
      for k := 0 to |slots|
        invariant ReadSlots(day.date.value, slots[..k]).Success?
        invariant reservations == before + ReadSlots(day.date.value, slots[..k]).value
      {
        var item := ReadSlot(day.date.value, slots[k]);
        assert slots[..k + 1][..k] == slots[..k];
        if item.Failure? {
          FirstBadSlot(day.date.value, slots, k);
          return Failure(item.error);
        }
        reservations := reservations + [item.value];
      }
      assert slots[..|slots|] == slots;
      assert days[..i + 1][..i] == days[..i];
    }
    assert days[..|days|] == days;
    var sorted := SortByDateAndSlot(reservations);
    r := Success(sorted);
  }

  lemma {:induction false} BadSlotsStayBad(date: Day, slots: seq<RawSlot>, k: nat, n: nat)
    requires k <= n <= |slots| && ReadSlots(date, slots[..k]).Failure?
    ensures ReadSlots(date, slots[..n]) == ReadSlots(date, slots[..k])
  {
    if k < n {
      assert slots[..n][..n - 1] == slots[..n - 1];
      BadSlotsStayBad(date, slots, k, n - 1);
    }
  }

  lemma {:induction false} FirstBadSlot(date: Day, slots: seq<RawSlot>, k: nat)
    requires k < |slots| && ReadSlots(date, slots[..k]).Success? && ReadSlot(date, slots[k]).Failure?
    ensures ReadSlots(date, slots).Failure? && ReadSlots(date, slots).error == ReadSlot(date, slots[k]).error
  {
    assert slots[..k + 1][..k] == slots[..k] && slots[..|slots|] == slots;
    BadSlotsStayBad(date, slots, k + 1, |slots|);
  }

  lemma {:induction false} BadDaysStayBad(days: seq<RawDay>, k: nat, n: nat)
    requires k <= n <= |days| && ReadDays(days[..k]).Failure?
    ensures ReadDays(days[..n]) == ReadDays(days[..k])
  {
    if k < n {
      assert days[..n][..n - 1] == days[..n - 1];
      BadDaysStayBad(days, k, n - 1);
    }
  }

  lemma {:induction false} FirstBadDay(days: seq<RawDay>, k: nat)
    requires k < |days| && ReadDays(days[..k]).Success? && ReadDay(days[k]).Failure?
    ensures ReadDays(days).Failure? && ReadDays(days).error == ReadDay(days[k]).error
  {
    assert days[..k + 1][..k] == days[..k] && days[..|days|] == days;
    BadDaysStayBad(days, k + 1, |days|);
  }

  /* ---------- what acceptance means ---------- */

  predicate GoodSlot(raw: RawSlot) {
    && raw.slot.Some? && raw.availability.Fields? && raw.availability.capacity.Known?
    && raw.availability.max.Some? && 0 <= raw.availability.max.value <= 100
    && (raw.availability.capacity.capacity == Full <==> raw.availability.max.value == 0)
  }

  /** The first cause, in this order, for which a slot is bad. */
  predicate BadSlot(raw: RawSlot, e: ParseError) {
    match e
    case UnknownSlot => raw.slot.None?
    case NoObject => raw.slot.Some? && raw.availability.NotObject?
    case BadCapacity => raw.slot.Some? && raw.availability.Fields? && !raw.availability.capacity.Known?
    case BadMax =>
      && raw.slot.Some? && raw.availability.Fields? && raw.availability.capacity.Known?
      && (raw.availability.max.None? || !(0 <= raw.availability.max.value <= 100))
    case CapacityMaxMismatch =>
      && raw.slot.Some? && raw.availability.Fields? && raw.availability.capacity.Known?
      && raw.availability.max.Some? && (raw.availability.capacity.capacity == Full <==> raw.availability.max.value != 0)
    case _ => false
  }

  lemma {:induction false} SlotErrorTellsCause(date: Day, raw: RawSlot)
    requires ReadSlot(date, raw).Failure?
    ensures !GoodSlot(raw) && BadSlot(raw, ReadSlot(date, raw).error)
  {
  }

  predicate GoodSlots(slots: seq<RawSlot>) {
    forall k | 0 <= k < |slots| :: GoodSlot(slots[k])
  }

  predicate GoodDay(day: RawDay) {
    day.date.Some? && day.slots.Some? && day.slots.value != [] && GoodSlots(day.slots.value)
  }

  lemma {:induction false} SlotsAcceptedIff(date: Day, slots: seq<RawSlot>)
    ensures ReadSlots(date, slots).Success? <==> GoodSlots(slots)
    ensures GoodSlots(slots) ==> |ReadSlots(date, slots).value| == |slots|
  {
    if slots != [] {
      var front := slots[..|slots| - 1];
      SlotsAcceptedIff(date, front);
      assert GoodSlots(slots) <==> GoodSlots(front) && GoodSlot(slots[|slots| - 1]);
    }
  }

  /** A response is accepted exactly when every day is well formed down to every slot. */
  lemma {:induction false} AcceptedIff(days: seq<RawDay>)
    ensures ReadDays(days).Success? <==> forall i | 0 <= i < |days| :: GoodDay(days[i])
  {
    if days != [] {
      var front, last := days[..|days| - 1], days[|days| - 1];
      AcceptedIff(front);
      assert days == front + [last];
      if last.date.Some? && last.slots.Some? { SlotsAcceptedIff(last.date.value, last.slots.value); }
    }
  }

  /** The error of a rejected response is that of its first bad day, or of the first bad slot of that day. */
  ghost predicate FirstBad(days: seq<RawDay>, e: ParseError) {
    exists i :: 0 <= i < |days| && (forall j | 0 <= j < i :: GoodDay(days[j])) && BadDay(days[i], e)
  }

  ghost predicate BadDay(day: RawDay, e: ParseError) {
    if day.date.None? then e == InvalidDate
    else if day.slots.None? then e == NoObject
    else if day.slots.value == [] then e == NoSlots
    else exists k :: 0 <= k < |day.slots.value| && GoodSlots(day.slots.value[..k]) && BadSlot(day.slots.value[k], e)
  }

  lemma {:induction false} SlotsErrorTellsCause(date: Day, slots: seq<RawSlot>) returns (k: nat)
    requires ReadSlots(date, slots).Failure?
    ensures k < |slots| && GoodSlots(slots[..k]) && BadSlot(slots[k], ReadSlots(date, slots).error)
  {
    var n := |slots| - 1;
    SlotsAcceptedIff(date, slots[..n]);
    if ReadSlots(date, slots[..n]).Failure? {
      k := SlotsErrorTellsCause(date, slots[..n]);
      assert slots[..n][..k] == slots[..k];
    } else {
      k := n;
      SlotErrorTellsCause(date, slots[n]);
    }
  }

  /** A rejected response has a first bad place, and the error tells what is bad there. */
  lemma {:induction false} ErrorTellsCause(days: seq<RawDay>)
    requires ReadDays(days).Failure?
    ensures FirstBad(days, ReadDays(days).error)
  {
    var n := |days| - 1;
    var front, last := days[..n], days[n];
    AcceptedIff(front);
    if ReadDays(front).Failure? {
      ErrorTellsCause(front);
      var i :| 0 <= i < |front| && (forall j | 0 <= j < i :: GoodDay(front[j]))
               && BadDay(front[i], ReadDays(front).error);
      assert days[i] == front[i] && forall j | 0 <= j < i :: days[j] == front[j];
    } else {
      if last.date.Some? && last.slots.Some? && last.slots.value != [] {
        var k := SlotsErrorTellsCause(last.date.value, last.slots.value);
      }
      assert forall j | 0 <= j < n :: days[j] == front[j];
    }
  }

  lemma {:induction false} SlotIsRead(date: Day, slots: seq<RawSlot>, k: nat)
    requires k < |slots| && ReadSlots(date, slots).Success?
    ensures ReadSlot(date, slots[k]).Success? && ReadSlot(date, slots[k]).value in ReadSlots(date, slots).value
  {
    if k < |slots| - 1 { SlotIsRead(date, slots[..|slots| - 1], k); }
  }

  /** The reservation stands for this slot: the date of its day, its name, capacity and maximum. */
  predicate Denotes(item: ReservationSlot, date: Option<Day>, raw: RawSlot) {
    && date == Some(item.date)
    && raw == RawSlot(Some(item.slot), Fields(Known(item.capacity), Some(item.max)))
  }

  /** Slot k of day i is there and stands for the reservation. */
  predicate SlotAt(days: seq<RawDay>, i: nat, k: nat, item: ReservationSlot) {
    && i < |days| && days[i].slots.Some? && k < |days[i].slots.value|
    && Denotes(item, days[i].date, days[i].slots.value[k])
  }

  lemma {:induction false} SlotBehind(date: Day, slots: seq<RawSlot>, item: ReservationSlot) returns (k: nat)
    requires ReadSlots(date, slots).Success? && item in ReadSlots(date, slots).value
    ensures k < |slots| && Denotes(item, Some(date), slots[k])
  {
    var n := |slots| - 1;
    if item in ReadSlots(date, slots[..n]).value { k := SlotBehind(date, slots[..n], item); } else { k := n; }
  }

  /** Every reservation of an accepted response stands for one of its slots. */
  lemma {:induction false} ReservationHasItsSlot(days: seq<RawDay>, item: ReservationSlot) returns (i: nat, k: nat)
    requires ReadDays(days).Success? && item in ReadDays(days).value
    ensures SlotAt(days, i, k, item)
  {
    var n := |days| - 1;
    if item in ReadDays(days[..n]).value {
      i, k := ReservationHasItsSlot(days[..n], item);
    } else {
      i := n;
      k := SlotBehind(days[n].date.value, days[n].slots.value, item);
    }
  }

  /** Every slot of every day of an accepted response becomes the reservation it stands for. */
  lemma {:induction false} EverySlotIsRead(days: seq<RawDay>, i: nat, k: nat)
    requires ReadDays(days).Success? && i < |days| && GoodDay(days[i]) && k < |days[i].slots.value|
    ensures ReadSlot(days[i].date.value, days[i].slots.value[k]).Success?
    ensures ReadSlot(days[i].date.value, days[i].slots.value[k]).value in ReadDays(days).value
    ensures Denotes(ReadSlot(days[i].date.value, days[i].slots.value[k]).value, days[i].date, days[i].slots.value[k])
  {
    if i < |days| - 1 {
      EverySlotIsRead(days[..|days| - 1], i, k);
    } else {
      SlotIsRead(days[i].date.value, days[i].slots.value, k);
    }
  }

  /** What a reservation of an accepted response satisfies. */
  predicate Plausible(item: ReservationSlot) {
    item.max <= 100 && (item.capacity == Full <==> item.max == 0)
  }

  lemma {:induction false} ReadSlotsPlausible(date: Day, slots: seq<RawSlot>)
    requires ReadSlots(date, slots).Success?
    ensures forall x | x in ReadSlots(date, slots).value :: Plausible(x)
  {
    if slots != [] { ReadSlotsPlausible(date, slots[..|slots| - 1]); }
  }

  lemma {:induction false} ReadDaysPlausible(days: seq<RawDay>)
    requires ReadDays(days).Success?
    ensures forall x | x in ReadDays(days).value :: Plausible(x)
  {
    if days != [] {
      ReadDaysPlausible(days[..|days| - 1]);
      var last := days[|days| - 1];
      ReadSlotsPlausible(last.date.value, last.slots.value);
    }
  }

  lemma {:induction false} MemberByKey(s: seq<ReservationSlot>, x: ReservationSlot)
    ensures x in s <==> x in OfKey(s, x.date, x.slot)
  {
    if s != [] {
      MemberByKey(s[..|s| - 1], x);
      assert s == s[..|s| - 1] + [s[|s| - 1]];
    }
  }

  /** Sorting neither adds nor loses a reservation, and an accepted one is full exactly when nothing can be reserved. */
  lemma {:induction false} AcceptedArePlausible(days: seq<RawDay>, reservations: seq<ReservationSlot>)
    requires ReadDays(days).Success? && SortOf(reservations, ReadDays(days).value)
    ensures forall x :: x in reservations <==> x in ReadDays(days).value
    ensures forall x | x in reservations :: Plausible(x)
  {
    forall x ensures x in reservations <==> x in ReadDays(days).value {
      MemberByKey(reservations, x);
      MemberByKey(ReadDays(days).value, x);
    }
    ReadDaysPlausible(days);
  }
}
