/** Calendar dates, their order and their ISO text. */
module Calendar {
  import opened IsoTime

  predicate AtMidnight(w: Wall) {
    w.hour == 0 && w.minute == 0 && w.second == 0 && w.micro == 0
  }

  type Day = w: Wall | AtMidnight(w) witness Stamp(1970, 1, 1, 0, 0, 0, 0)

  /** `date.isoformat()`. */
  function DayText(d: Day): string {
    Pad(d.year, 4) + ("-" + (Pad(d.month, 2) + ("-" + (Pad(d.day, 2) + ""))))
  }

  /** The text is YYYY-MM-DD. */
  lemma {:induction false} DayTextMeans(d: Day)
    ensures var t := DayText(d);
      && |t| == 10 && t[4] == t[7] == '-'
      && IsNumeral(t[..4]) && IsNumeral(t[5..7]) && IsNumeral(t[8..])
      && ValueOf(t[..4]) == d.year && ValueOf(t[5..7]) == d.month && ValueOf(t[8..]) == d.day
  {
    assert Pow10(2) == 100 && Pow10(4) == 10000;
    PadMeans(d.year, 4);
    PadMeans(d.month, 2);
    PadMeans(d.day, 2);
    var t := DayText(d);
    assert t[..4] == Pad(d.year, 4) && t[5..7] == Pad(d.month, 2) && t[8..] == Pad(d.day, 2);
  }

  lemma {:induction false} SameOrdinalSameDay(a: Day, b: Day)
    requires Ordinal(a) == Ordinal(b)
    ensures a == b
  {
    if DateBefore(a, b) {
      OrdinalIncreases(a, b);
    } else if DateBefore(b, a) {
      OrdinalIncreases(b, a);
    }
  }

  lemma {:induction false} TextByFields(a: Day, b: Day)
    ensures TextLess(DayText(a), DayText(b)) <==> DateBefore(a, b)
  {
    assert Pow10(2) == 100 && Pow10(4) == 10000;
    var da, db := Pad(a.day, 2) + "", Pad(b.day, 2) + "";
    FieldOrder(a.day, b.day, 2, "", "");
    SharedPrefix("-", da, db);
    var ma, mb := Pad(a.month, 2) + ("-" + da), Pad(b.month, 2) + ("-" + db);
    FieldOrder(a.month, b.month, 2, "-" + da, "-" + db);
    SharedPrefix("-", ma, mb);
    FieldOrder(a.year, b.year, 4, "-" + ma, "-" + mb);
  }

  lemma {:induction false} NotBelowItself(text: string)
    ensures !TextLess(text, text)
  {
    SharedPrefix(text, "", "");
    assert text + "" == text;
  }

  /** The texts of two dates are ordered as the dates are; in particular they differ when the dates do. */
  lemma {:induction false} DayTextOrder(a: Day, b: Day)
    ensures TextLess(DayText(a), DayText(b)) <==> Ordinal(a) < Ordinal(b)
    ensures DayText(a) == DayText(b) <==> a == b
  {
    TextByFields(a, b);
    TextByFields(b, a);
    if DateBefore(a, b) {
      OrdinalIncreases(a, b);
      NotBelowItself(DayText(a));
    } else if DateBefore(b, a) {
      OrdinalIncreases(b, a);
      NotBelowItself(DayText(b));
    }
  }
}
