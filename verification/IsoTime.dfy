/**
 * Timestamps are stored as the text `datetime.isoformat()` produces and pruning
 * compares them as text. This module relates the order of the texts to the
 * order of the instants.
 */
module IsoTime {

  datatype Stamp = Stamp(year: nat, month: nat, day: nat, hour: nat, minute: nat, second: nat, micro: nat)

  predicate Leap(year: nat) {
    year % 4 == 0 && (year % 100 != 0 || year % 400 == 0)
  }

  function DaysIn(year: nat, month: nat): nat {
    if month == 2 then (if Leap(year) then 29 else 28)
    else if month in {4, 6, 9, 11} then 30 else 31
  }

  predicate RealStamp(s: Stamp) {
    && 1 <= s.year <= 9999 && 1 <= s.month <= 12 && 1 <= s.day <= DaysIn(s.year, s.month)
    && s.hour < 24 && s.minute < 60 && s.second < 60 && s.micro < 1000000
  }

  /** A wall-clock reading that `datetime` accepts. */
  type Wall = s: Stamp | RealStamp(s) witness Stamp(1970, 1, 1, 0, 0, 0, 0)

  /* ---------- chronological order ---------- */

  function DaysBeforeYear(year: nat): int
    requires year >= 1
  {
    var y := year - 1;
    y * 365 + y / 4 - y / 100 + y / 400
  }

  function DaysBeforeMonth(year: nat, month: nat): nat
    requires 1 <= month <= 13
  {
    if month == 1 then 0 else DaysBeforeMonth(year, month - 1) + DaysIn(year, month - 1)
  }

  /** Proleptic Gregorian ordinal, `date.toordinal()`. */
  function Ordinal(s: Wall): int {
    DaysBeforeYear(s.year) + DaysBeforeMonth(s.year, s.month) + s.day
  }

  /** Microseconds since midnight before day 1 of year 1, local time. */
  function WallMicros(s: Wall): int {
    (((Ordinal(s) * 24 + s.hour) * 60 + s.minute) * 60 + s.second) * 1000000 + s.micro
  }

  /** UTC offsets in microseconds, strictly within one day as `tzinfo` demands. */
  type Offset = m: int | -86400000000 < m < 86400000000

  /** The instant, in microseconds, that a wall-clock reading at an offset denotes. */
  function Instant(s: Wall, offset: Offset): int {
    WallMicros(s) - offset
  }

  predicate DateBefore(a: Wall, b: Wall) {
    a.year < b.year || (a.year == b.year && (a.month < b.month || (a.month == b.month && a.day < b.day)))
  }

  lemma {:induction false} YearsAddUp(y: nat, z: nat)
    requires 1 <= y < z
    ensures DaysBeforeYear(y) + DaysBeforeMonth(y, 13) <= DaysBeforeYear(z)
    decreases z
  {
    if y + 1 < z {
      YearsAddUp(y, z - 1);
      YearLength(z - 1);
    } else {
      YearLength(y);
    }
  }

  lemma {:induction false} YearLength(y: nat)
    requires y >= 1
    ensures DaysBeforeYear(y + 1) == DaysBeforeYear(y) + DaysBeforeMonth(y, 13)
  {
    MonthsOfYear(y);
    LeapDays(y);
  }

  lemma {:induction false} LeapDays(y: nat)
    requires y >= 1
    ensures DaysBeforeYear(y + 1) == DaysBeforeYear(y) + if Leap(y) then 366 else 365
  {
    var every4, every100, every400 := Quarter(y), Century(y), FourCenturies(y);
    assert y / 4 == (y - 1) / 4 + every4;
    assert y / 100 == (y - 1) / 100 + every100;
    assert y / 400 == (y - 1) / 400 + every400;
    assert every4 - every100 + every400 == if Leap(y) then 1 else 0;
  }

  function Quarter(y: nat): (step: int)
    requires y >= 1
    ensures y / 4 == (y - 1) / 4 + step
  {
    if y % 4 == 0 then 1 else 0
  }

  function Century(y: nat): (step: int)
    requires y >= 1
    ensures y / 100 == (y - 1) / 100 + step
    ensures step == 1 ==> y % 4 == 0
  {
    if y % 100 == 0 then 1 else 0
  }

  function FourCenturies(y: nat): (step: int)
    requires y >= 1
    ensures y / 400 == (y - 1) / 400 + step
    ensures step == 1 ==> y % 100 == 0
  {
    if y % 400 == 0 then 1 else 0
  }

  lemma {:induction false} MonthsOfYear(y: nat)
    ensures DaysBeforeMonth(y, 13) == if Leap(y) then 366 else 365
  {
    assert DaysBeforeMonth(y, 2) == 31;
    assert DaysBeforeMonth(y, 3) == DaysIn(y, 2) + 31;
    assert DaysBeforeMonth(y, 5) == DaysBeforeMonth(y, 3) + 61;
    assert DaysBeforeMonth(y, 7) == DaysBeforeMonth(y, 5) + 61;
    assert DaysBeforeMonth(y, 9) == DaysBeforeMonth(y, 7) + 62;
    assert DaysBeforeMonth(y, 11) == DaysBeforeMonth(y, 9) + 61;
    assert DaysBeforeMonth(y, 13) == DaysBeforeMonth(y, 11) + 61;
  }

  lemma {:induction false} MonthsAddUp(y: nat, m: nat, n: nat)
    requires 1 <= m < n <= 13
    ensures DaysBeforeMonth(y, m) + DaysIn(y, m) <= DaysBeforeMonth(y, n)
    decreases n
  {
    if m + 1 < n { MonthsAddUp(y, m, n - 1); }
  }

  lemma {:induction false} OrdinalIncreases(a: Wall, b: Wall)
    requires DateBefore(a, b)
    ensures Ordinal(a) < Ordinal(b)
  {
    if a.year < b.year {
      YearsAddUp(a.year, b.year);
      MonthsAddUp(a.year, a.month, 13);
    } else if a.month < b.month {
      MonthsAddUp(a.year, a.month, b.month);
    }
  }

  /* ---------- text order ---------- */

  /** SQLite's BINARY collation on the ASCII texts below. */
  predicate TextLess(a: string, b: string) {
    if b == [] then false
    else if a == [] then true
    else if a[0] != b[0] then a[0] < b[0]
    else TextLess(a[1..], b[1..])
  }

  function Digit(n: nat): char
    requires n < 10
  {
    "0123456789"[n]
  }

  /** Decimal text of fixed width, zero padded. */
  function Pad(n: nat, width: nat): (text: string)
    ensures |text| == width
  {
    if width == 0 then [] else Pad(n / 10, width - 1) + [Digit(n % 10)]
  }

  predicate IsDigit(c: char) {
    '0' <= c <= '9'
  }

  predicate IsNumeral(text: string) {
    forall i | 0 <= i < |text| :: IsDigit(text[i])
  }

  /** The number that a decimal text denotes. */
  function ValueOf(text: string): nat
    requires IsNumeral(text)
  {
    if text == [] then 0 else 10 * ValueOf(text[..|text| - 1]) + (text[|text| - 1] as int - '0' as int)
  }

  lemma {:induction false} DigitMeans(n: nat)
    requires n < 10
    ensures IsDigit(Digit(n)) && Digit(n) as int - '0' as int == n
  {
  }

  lemma {:induction false} NumeralSnoc(text: string, c: char)
    requires IsNumeral(text) && IsDigit(c)
    ensures IsNumeral(text + [c]) && ValueOf(text + [c]) == 10 * ValueOf(text) + (c as int - '0' as int)
  {
    assert (text + [c])[..|text|] == text;
  }

  /** A padded text denotes its number. */
  lemma {:induction false} PadMeans(n: nat, width: nat)
    requires n < Pow10(width)
    ensures IsNumeral(Pad(n, width)) && ValueOf(Pad(n, width)) == n
  {
    if width > 0 {
      PadMeans(n / 10, width - 1);
      DigitMeans(n % 10);
      NumeralSnoc(Pad(n / 10, width - 1), Digit(n % 10));
    }
  }

  function Pow10(n: nat): nat {
    if n == 0 then 1 else 10 * Pow10(n - 1)
  }

  lemma {:induction false} SharedPrefix(p: string, a: string, b: string)
    ensures TextLess(p + a, p + b) == TextLess(a, b)
  {
    if p == [] {
      assert p + a == a && p + b == b;
    } else {
      assert (p + a)[1..] == p[1..] + a && (p + b)[1..] == p[1..] + b;
      SharedPrefix(p[1..], a, b);
    }
  }

  lemma {:induction false} DecidedByPrefix(p: string, q: string, a: string, b: string)
    requires |p| == |q| && p != q
    ensures TextLess(p + a, q + b) == TextLess(p, q)
  {
    assert (p + a)[0] == p[0] && (q + b)[0] == q[0];
    if p[0] == q[0] {
      assert p == [p[0]] + p[1..] && q == [q[0]] + q[1..];
      assert (p + a)[1..] == p[1..] + a && (q + b)[1..] == q[1..] + b;
      DecidedByPrefix(p[1..], q[1..], a, b);
    }
  }

  lemma {:induction false} DigitOrder(c: nat, d: nat)
    requires c < 10 && d < 10
    ensures TextLess([Digit(c)], [Digit(d)]) <==> c < d
    ensures Digit(c) == Digit(d) <==> c == d
  {
  }

  lemma {:induction false} LastDigitDecides(m: nat, n: nat)
    ensures m < n <==> m / 10 < n / 10 || (m / 10 == n / 10 && m % 10 < n % 10)
  {
  }

  /** Texts of one length with one more digit each. */
  lemma {:induction false} OneMoreDigit(p: string, q: string, c: nat, d: nat)
    requires |p| == |q| && c < 10 && d < 10
    ensures TextLess(p + [Digit(c)], q + [Digit(d)]) <==> TextLess(p, q) || (p == q && c < d)
    ensures p + [Digit(c)] == q + [Digit(d)] <==> p == q && c == d
  {
    DigitOrder(c, d);
    if p == q {
      SharedPrefix(p, [Digit(c)], [Digit(d)]);
      Irreflexive(p);
    } else {
      DecidedByPrefix(p, q, [Digit(c)], [Digit(d)]);
    }
    assert (p + [Digit(c)])[..|p|] == p && (q + [Digit(d)])[..|q|] == q;
    assert (p + [Digit(c)])[|p|] == Digit(c) && (q + [Digit(d)])[|q|] == Digit(d);
  }

  lemma {:induction false} Irreflexive(p: string)
    ensures !TextLess(p, p)
  {
    if p != [] { Irreflexive(p[1..]); }
  }

  lemma {:induction false} PadOrder(m: nat, n: nat, width: nat)
    requires m < Pow10(width) && n < Pow10(width)
    ensures TextLess(Pad(m, width), Pad(n, width)) <==> m < n
    ensures Pad(m, width) == Pad(n, width) <==> m == n
  {
    if width > 0 {
      PadOrder(m / 10, n / 10, width - 1);
      LastDigitDecides(m, n);
      OneMoreDigit(Pad(m / 10, width - 1), Pad(n / 10, width - 1), m % 10, n % 10);
    }
  }

  /** Comparing two texts that start with a fixed-width number. */
  lemma {:induction false} FieldOrder(m: nat, n: nat, width: nat, a: string, b: string)
    requires m < Pow10(width) && n < Pow10(width)
    ensures TextLess(Pad(m, width) + a, Pad(n, width) + b) <==> m < n || (m == n && TextLess(a, b))
  {
    PadOrder(m, n, width);
    if m == n { SharedPrefix(Pad(m, width), a, b); }
    else { DecidedByPrefix(Pad(m, width), Pad(n, width), a, b); }
  }

  /* ---------- isoformat() ---------- */

  /** Fractions of a second, left out when zero. */
  function MicrosText(micros: nat): string {
    if micros == 0 then "" else "." + (Pad(micros, 6) + "")
  }

  /** Seconds of an offset, left out with their fraction when both are zero. */
  function SecondsText(micros: nat): string {
    if micros == 0 then "" else ":" + (Pad(micros / 1000000, 2) + MicrosText(micros % 1000000))
  }

  function SizeText(micros: nat): string {
    Pad(micros / 3600000000, 2) + (":" + (Pad(micros / 60000000 % 60, 2) + SecondsText(micros % 60000000)))
  }

  function Size(offset: Offset): (size: nat)
    ensures size < 86400000000
  {
    if offset < 0 then -offset else offset
  }

  function OffsetText(offset: Offset): string {
    (if offset < 0 then "-" else "+") + SizeText(Size(offset))
  }

  /** The fraction is left out entirely when it is zero. */
  function FractionText(micro: nat, offset: Offset): string {
    if micro == 0 then OffsetText(offset) else "." + (Pad(micro, 6) + OffsetText(offset))
  }

  function ClockText(s: Wall, offset: Offset): string {
    Pad(s.hour, 2) + (":" + (Pad(s.minute, 2) + (":" + (Pad(s.second, 2) + FractionText(s.micro, offset)))))
  }

  function Iso(s: Wall, offset: Offset): string {
    Pad(s.year, 4) + ("-" + (Pad(s.month, 2) + ("-" + (Pad(s.day, 2) + ("T" + ClockText(s, offset))))))
  }

  /* ---------- the order of offset texts ---------- */

  lemma {:induction false} MicrosOrder(m: nat, n: nat)
    requires m < 1000000 && n < 1000000
    ensures TextLess(MicrosText(m), MicrosText(n)) <==> m < n
  {
    assert Pow10(6) == 1000000;
    if m != 0 && n != 0 {
      FieldOrder(m, n, 6, "", "");
      SharedPrefix(".", Pad(m, 6) + "", Pad(n, 6) + "");
    }
  }

  lemma {:induction false} SecondsOrder(m: nat, n: nat)
    requires m < 60000000 && n < 60000000
    ensures TextLess(SecondsText(m), SecondsText(n)) <==> m < n
  {
    assert Pow10(2) == 100;
    if m != 0 && n != 0 {
      var ms, ns := MicrosText(m % 1000000), MicrosText(n % 1000000);
      MicrosOrder(m % 1000000, n % 1000000);
      FieldOrder(m / 1000000, n / 1000000, 2, ms, ns);
      SharedPrefix(":", Pad(m / 1000000, 2) + ms, Pad(n / 1000000, 2) + ns);
    }
  }

  lemma {:induction false} SizeOrder(m: nat, n: nat)
    requires m < 86400000000 && n < 86400000000
    ensures TextLess(SizeText(m), SizeText(n)) <==> m < n
  {
    assert Pow10(2) == 100;
    var ms, ns := SecondsText(m % 60000000), SecondsText(n % 60000000);
    SecondsOrder(m % 60000000, n % 60000000);
    FieldOrder(m / 60000000 % 60, n / 60000000 % 60, 2, ms, ns);
    var mm, nm := Pad(m / 60000000 % 60, 2) + ms, Pad(n / 60000000 % 60, 2) + ns;
    SharedPrefix(":", mm, nm);
    FieldOrder(m / 3600000000, n / 3600000000, 2, ":" + mm, ":" + nm);
    SplitOrder(m, n);
  }

  lemma {:induction false} SplitOrder(m: nat, n: nat)
    ensures m < n <==>
      m / 3600000000 < n / 3600000000 || (m / 3600000000 == n / 3600000000 &&
        (m / 60000000 % 60 < n / 60000000 % 60 || (m / 60000000 % 60 == n / 60000000 % 60 &&
          m % 60000000 < n % 60000000)))
  {
    assert m / 60000000 == m / 3600000000 * 60 + m / 60000000 % 60;
    assert n / 60000000 == n / 3600000000 * 60 + n / 60000000 % 60;
  }

  lemma {:induction false} SignedOrder(sign: string, m: nat, n: nat)
    requires m < 86400000000 && n < 86400000000
    ensures TextLess(sign + SizeText(m), sign + SizeText(n)) <==> m < n
  {
    SizeOrder(m, n);
    SharedPrefix(sign, SizeText(m), SizeText(n));
  }

  lemma {:induction false} PlusOrder(o: Offset, p: Offset)
    requires o >= 0 && p >= 0
    ensures TextLess(OffsetText(o), OffsetText(p)) <==> o < p
  {
    SignedOrder("+", Size(o), Size(p));
  }

  lemma {:induction false} MinusOrder(o: Offset, p: Offset)
    requires o < 0 && p < 0
    ensures TextLess(OffsetText(o), OffsetText(p)) <==> p < o
  {
    SignedOrder("-", Size(o), Size(p));
  }

  lemma {:induction false} PlusBeforeMinus(a: string, b: string)
    ensures TextLess("+" + a, "-" + b) && !TextLess("-" + b, "+" + a)
  {
    assert ("+" + a)[0] == '+' && ("-" + b)[0] == '-';
  }

  lemma {:induction false} OppositeSignOrder(o: Offset, p: Offset)
    requires o >= 0 > p
    ensures TextLess(OffsetText(o), OffsetText(p)) && !TextLess(OffsetText(p), OffsetText(o))
  {
    PlusBeforeMinus(SizeText(Size(o)), SizeText(Size(p)));
  }

  /** "+" sorts before "-", and within a sign the texts follow the size of the offset. */
  lemma {:induction false} OffsetTextOrder(o: Offset, p: Offset)
    ensures TextLess(OffsetText(o), OffsetText(p)) <==>
      if o >= 0 && p >= 0 then o < p else if o < 0 && p < 0 then p < o else o >= 0
  {
    if o >= 0 > p { OppositeSignOrder(o, p); }
    else if p >= 0 > o { OppositeSignOrder(p, o); }
    else if o >= 0 { PlusOrder(o, p); }
    else { MinusOrder(o, p); }
  }

  /* ---------- the order of timestamps ---------- */

  predicate ClockBefore(a: Wall, b: Wall) {
    a.hour < b.hour || (a.hour == b.hour && (a.minute < b.minute || (a.minute == b.minute &&
      (a.second < b.second || (a.second == b.second && a.micro < b.micro)))))
  }

  predicate SameClock(a: Wall, b: Wall) {
    a.hour == b.hour && a.minute == b.minute && a.second == b.second && a.micro == b.micro
  }

  lemma {:induction false} FractionOrder(a: nat, o: Offset, b: nat, p: Offset)
    requires a < 1000000 && b < 1000000
    ensures TextLess(FractionText(a, o), FractionText(b, p)) <==>
      a < b || (a == b && TextLess(OffsetText(o), OffsetText(p)))
  {
    assert Pow10(6) == 1000000;
    if a != 0 && b != 0 {
      FieldOrder(a, b, 6, OffsetText(o), OffsetText(p));
      SharedPrefix(".", Pad(a, 6) + OffsetText(o), Pad(b, 6) + OffsetText(p));
    }
  }

  lemma {:induction false} ClockOrder(a: Wall, o: Offset, b: Wall, p: Offset)
    ensures TextLess(ClockText(a, o), ClockText(b, p)) <==>
      ClockBefore(a, b) || (SameClock(a, b) && TextLess(OffsetText(o), OffsetText(p)))
  {
    assert Pow10(2) == 100;
    var fa, fb := FractionText(a.micro, o), FractionText(b.micro, p);
    FractionOrder(a.micro, o, b.micro, p);
    var sa, sb := Pad(a.second, 2) + fa, Pad(b.second, 2) + fb;
    FieldOrder(a.second, b.second, 2, fa, fb);
    SharedPrefix(":", sa, sb);
    var ma, mb := Pad(a.minute, 2) + (":" + sa), Pad(b.minute, 2) + (":" + sb);
    FieldOrder(a.minute, b.minute, 2, ":" + sa, ":" + sb);
    SharedPrefix(":", ma, mb);
    FieldOrder(a.hour, b.hour, 2, ":" + ma, ":" + mb);
  }

  lemma {:induction false} DateTextOrder(a: Wall, o: Offset, b: Wall, p: Offset)
    ensures TextLess(Iso(a, o), Iso(b, p)) <==>
      DateBefore(a, b) || (a.year == b.year && a.month == b.month && a.day == b.day
                           && TextLess(ClockText(a, o), ClockText(b, p)))
  {
    assert Pow10(2) == 100 && Pow10(4) == 10000;
    var ca, cb := ClockText(a, o), ClockText(b, p);
    SharedPrefix("T", ca, cb);
    var da, db := Pad(a.day, 2) + ("T" + ca), Pad(b.day, 2) + ("T" + cb);
    FieldOrder(a.day, b.day, 2, "T" + ca, "T" + cb);
    SharedPrefix("-", da, db);
    var ma, mb := Pad(a.month, 2) + ("-" + da), Pad(b.month, 2) + ("-" + db);
    FieldOrder(a.month, b.month, 2, "-" + da, "-" + db);
    SharedPrefix("-", ma, mb);
    FieldOrder(a.year, b.year, 4, "-" + ma, "-" + mb);
  }

  lemma {:induction false} MicrosByFields(a: Wall, b: Wall)
    ensures WallMicros(a) < WallMicros(b) <==>
      DateBefore(a, b) || (a.year == b.year && a.month == b.month && a.day == b.day && ClockBefore(a, b))
  {
    if DateBefore(a, b) { OrdinalIncreases(a, b); }
    if DateBefore(b, a) { OrdinalIncreases(b, a); }
  }

  /** Texts compare by the wall clock first and by the offset's text only when the clocks agree. */
  lemma {:induction false} TextOrder(a: Wall, o: Offset, b: Wall, p: Offset)
    ensures TextLess(Iso(a, o), Iso(b, p)) <==>
      WallMicros(a) < WallMicros(b) || (a == b && TextLess(OffsetText(o), OffsetText(p)))
  {
    DateTextOrder(a, o, b, p);
    ClockOrder(a, o, b, p);
    MicrosByFields(a, b);
  }

  /** At one common offset (UTC in particular), text order is time order. */
  lemma {:induction false} TextOrderIsTimeOrder(a: Wall, b: Wall, offset: Offset)
    ensures TextLess(Iso(a, offset), Iso(b, offset)) <==> Instant(a, offset) < Instant(b, offset)
  {
    TextOrder(a, offset, b, offset);
    OffsetTextOrder(offset, offset);
  }

  ghost predicate OrdersAgree(o: Offset, p: Offset) {
    forall a: Wall, b: Wall ::
      TextLess(Iso(a, o), Iso(b, p)) <==> Instant(a, o) < Instant(b, p)
  }

  lemma {:induction false} SameMicrosSameWall(a: Wall, b: Wall)
    requires WallMicros(a) == WallMicros(b)
    ensures a == b
  {
    MicrosByFields(a, b);
    MicrosByFields(b, a);
  }

  lemma {:induction false} OrdersAgreeFor(o: Offset, p: Offset, a: Wall, b: Wall)
    requires o == p || (o == p + 1 && o <= 0)
    ensures TextLess(Iso(a, o), Iso(b, p)) <==> Instant(a, o) < Instant(b, p)
  {
    OffsetTextOrder(o, p);
    TextOrder(a, o, b, p);
    if WallMicros(a) == WallMicros(b) { SameMicrosSameWall(a, b); }
  }

  /** Two readings one microsecond apart. */
  lemma {:induction false} AdjacentReadings() returns (a: Wall, b: Wall)
    ensures WallMicros(b) == WallMicros(a) + 1
  {
    a := Stamp(2026, 1, 1, 12, 0, 0, 0);
    b := Stamp(2026, 1, 1, 12, 0, 0, 1);
    assert Ordinal(a) == Ordinal(b);
  }

  lemma {:induction false} OrdersDisagreeFor(o: Offset, p: Offset) returns (a: Wall, b: Wall)
    requires o != p && (o != p + 1 || o > 0)
    ensures TextLess(Iso(a, o), Iso(b, p)) != (Instant(a, o) < Instant(b, p))
  {
    var noon, later := AdjacentReadings();
    if o < p { a, b := noon, later; }
    else if o == p + 1 { a, b := noon, noon; OffsetTextOrder(o, p); }
    else { a, b := later, noon; }
    TextOrder(a, o, b, p);
  }

  /**
   * The store accepts any timezone-aware time, and with two different offsets
   * the text comparison goes wrong for some pair of times: the orders agree
   * for all times exactly when the offsets are the same. (The one freak
   * exception: zero or negative offsets one microsecond apart.)
   */
  lemma {:induction false} OrdersAgreeIff(o: Offset, p: Offset)
    ensures OrdersAgree(o, p) <==> o == p || (o == p + 1 && o <= 0)
  {
    if o == p || (o == p + 1 && o <= 0) {
      forall a: Wall, b: Wall ensures TextLess(Iso(a, o), Iso(b, p)) <==> Instant(a, o) < Instant(b, p) {
        OrdersAgreeFor(o, p, a, b);
      }
    } else {
      var a, b := OrdersDisagreeFor(o, p);
    }
  }
}
