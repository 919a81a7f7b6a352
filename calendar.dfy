/** Timestamps and the per-day cache key that exchange.go derives from them
    with `t.Format("20060102")`. A timestamp is its calendar reading in its
    own location; the clock and time zones are not modelled. */
module Calendar {
  import opened Digits

  datatype Timestamp = Timestamp(
    year: int, month: nat, day: nat,
    hour: nat, minute: nat, second: nat, nanosecond: nat)
  {
    /** The ranges Go's `time.Time` accessors stay within. */
    predicate Valid() {
      1 <= month <= 12 && 1 <= day <= 31 &&
      hour < 24 && minute < 60 && second < 60 && nanosecond < 1000000000
    }
  }

  /** The cache key: Go's `type date string`. */
  type Date = string

  /** Go's "2006" layout element: at least four digits, a minus sign for
      years before year zero. */
  function YearText(y: int): string {
    if y < 0 then "-" + Pad(-y, 4) else Pad(y, 4)
  }

  /** toDate (exchange.go:19-21): year, two-digit month, two-digit day. */
  function ToDate(t: Timestamp): Date {
    YearText(t.year) + Pad(t.month, 2) + Pad(t.day, 2)
  }

  /** Reads the year, month and day back out of an eight-digit key. */
  function DateFields(d: Date): (int, nat, nat)
    requires |d| == 8 && AllDigits(d)
  {
    (Value(d[..4]), Value(d[4..6]), Value(d[6..]))
  }

  /** Years 0 to 9999 give an eight-character, all-digit key whose fields
      read back as the timestamp's year, month and day. */
  lemma ToDateFields(t: Timestamp)
    requires 0 <= t.year <= 9999 && t.month < 100 && t.day < 100
    ensures |ToDate(t)| == 8 && AllDigits(ToDate(t))
    ensures DateFields(ToDate(t)) == (t.year, t.month, t.day)
  {
    var y, m, d := Pad(t.year, 4), Pad(t.month, 2), Pad(t.day, 2);
    PadLength(t.year, 4);
    PadLength(t.month, 2);
    PadLength(t.day, 2);
    var key := ToDate(t);
    assert key == y + m + d;
    assert key[..4] == y;
    assert key[4..6] == m;
    assert key[6..] == d;
    ValueOfPad(t.year, 4);
    ValueOfPad(t.month, 2);
    ValueOfPad(t.day, 2);
  }

  /** Two timestamps share a key exactly when they fall on the same calendar
      date: the time of day is discarded and distinct dates never collide. */
  lemma SameKeyIffSameDate(t1: Timestamp, t2: Timestamp)
    requires t1.Valid() && t2.Valid()
    requires 0 <= t1.year <= 9999 && 0 <= t2.year <= 9999
    ensures ToDate(t1) == ToDate(t2) <==>
            (t1.year, t1.month, t1.day) == (t2.year, t2.month, t2.day)
  {
    ToDateFields(t1);
    ToDateFields(t2);
  }
}
