/** Persisted UTC timestamps and the string comparison the sweeper makes on them.

    `_now_iso` and `_iso_after` write whole seconds; the evaluator lease of the iteration
    controller writes six fractional digits into the same deadline column. */
module IsoTime {
  import opened Statuses

  datatype Stamp = Stamp(year: nat, month: nat, day: nat, hour: nat, minute: nat, second: nat,
                         micros: Option<nat>)

  predicate Leap(y: nat) {
    y % 4 == 0 && (y % 100 != 0 || y % 400 == 0)
  }

  function DaysInMonth(y: nat, m: nat): (d: nat)
    ensures 28 <= d <= 31
  {
    if m == 2 then (if Leap(y) then 29 else 28)
    else if m in {4, 6, 9, 11} then 30
    else 31
  }

  /** The range of `datetime`, all fields calendar-correct. */
  predicate Valid(t: Stamp) {
    && 1 <= t.year <= 9999
    && 1 <= t.month <= 12
    && 1 <= t.day <= DaysInMonth(t.year, t.month)
    && t.hour < 24 && t.minute < 60 && t.second < 60
    && (t.micros.Some? ==> t.micros.value < 1000000)
  }

  function DaysBeforeYear(y: nat): nat
    requires 1 <= y
  {
    if y == 1 then 0 else DaysBeforeYear(y - 1) + (if Leap(y - 1) then 366 else 365)
  }

  function DaysBeforeMonth(y: nat, m: nat): nat
    requires 1 <= m
  {
    if m == 1 then 0 else DaysBeforeMonth(y, m - 1) + DaysInMonth(y, m - 1)
  }

  /** Whole seconds since 0001-01-01T00:00:00 in the proleptic Gregorian calendar. */
  function Seconds(t: Stamp): nat
    requires 1 <= t.year && 1 <= t.month
  {
    (((DaysBeforeYear(t.year) + DaysBeforeMonth(t.year, t.month) + t.day) * 24 + t.hour) * 60 + t.minute) * 60
    + t.second
  }

  /** The last day of a month: February has 29 days every fourth year, except in three centuries of four. */
  function LastDay(y: nat, m: nat): nat {
    match m
    case 2 => if y % 400 == 0 || (y % 4 == 0 && y % 100 != 0) then 29 else 28
    case 4 => 30
    case 6 => 30
    case 9 => 30
    case 11 => 30
    case _ => 31
  }

  /** The clock one second later, as it carries. */
  function Tick(t: Stamp): Stamp {
    if t.second + 1 < 60 then t.(second := t.second + 1)
    else if t.minute + 1 < 60 then t.(minute := t.minute + 1, second := 0)
    else if t.hour + 1 < 24 then t.(hour := t.hour + 1, minute := 0, second := 0)
    else if t.day < LastDay(t.year, t.month) then t.(day := t.day + 1, hour := 0, minute := 0, second := 0)
    else if t.month < 12 then t.(month := t.month + 1, day := 1, hour := 0, minute := 0, second := 0)
    else t.(year := t.year + 1, month := 1, day := 1, hour := 0, minute := 0, second := 0)
  }

  /** Time counts the ticks of the clock: through minutes, hours, months of every length and leap years. */
  lemma TicksAreSeconds(t: Stamp)
    requires Valid(t) && Tick(t).year <= 9999
    ensures Valid(Tick(t)) && Seconds(Tick(t)) == Seconds(t) + 1
  {
    assert LastDay(t.year, t.month) == DaysInMonth(t.year, t.month);
    if t.second == 59 && t.minute == 59 && t.hour == 23 && t.day == DaysInMonth(t.year, t.month) {
      if t.month < 12 {
        assert DaysBeforeMonth(t.year, t.month + 1) == DaysBeforeMonth(t.year, t.month) + DaysInMonth(t.year, t.month);
      } else {
        YearsAreWhole(t.year);
      }
    }
  }

  lemma YearsAreWhole(y: nat)
    requires 1 <= y
    ensures DaysBeforeYear(y + 1) == DaysBeforeYear(y) + DaysBeforeMonth(y, 12) + 31
  {
    assert DaysBeforeMonth(y, 12) == DaysBeforeMonth(y, 11) + 30;
    assert DaysBeforeMonth(y, 11) == DaysBeforeMonth(y, 10) + 31;
    assert DaysBeforeMonth(y, 10) == DaysBeforeMonth(y, 9) + 30;
    assert DaysBeforeMonth(y, 9) == DaysBeforeMonth(y, 8) + 31;
    assert DaysBeforeMonth(y, 8) == DaysBeforeMonth(y, 7) + 31;
    assert DaysBeforeMonth(y, 7) == DaysBeforeMonth(y, 6) + 30;
    assert DaysBeforeMonth(y, 6) == DaysBeforeMonth(y, 5) + 31;
    assert DaysBeforeMonth(y, 5) == DaysBeforeMonth(y, 4) + 30;
    assert DaysBeforeMonth(y, 4) == DaysBeforeMonth(y, 3) + 31;
    assert DaysBeforeMonth(y, 3) == DaysBeforeMonth(y, 2) + DaysInMonth(y, 2);
    assert DaysBeforeMonth(y, 2) == DaysBeforeMonth(y, 1) + 31;
  }

  function Micros(t: Stamp): nat {
    if t.micros.Some? then t.micros.value else 0
  }

  /** Time order, to the microsecond. */
  predicate Earlier(a: Stamp, b: Stamp)
    requires Valid(a) && Valid(b)
  {
    Seconds(a) < Seconds(b) || (Seconds(a) == Seconds(b) && Micros(a) < Micros(b))
  }

  // ---------- rendering ----------

  function Digit(n: nat): char
    requires n < 10
  {
    (n as char) + '0'
  }

  function Pow10(w: nat): nat {
    if w == 0 then 1 else 10 * Pow10(w - 1)
  }

  /** `n` in exactly `w` decimal digits, zero-padded. */
  function Pad(n: nat, w: nat): (s: string)
    requires n < Pow10(w)
    ensures |s| == w
  {
    if w == 0 then "" else Pad(n / 10, w - 1) + [Digit(n % 10)]
  }

  lemma Pow10Values()
    ensures Pow10(2) == 100 && Pow10(4) == 10000 && Pow10(6) == 1000000
  {
    assert Pow10(3) == 1000;
    assert Pow10(5) == 100000;
  }

  function Zone(t: Stamp): string
    requires t.micros.Some? ==> t.micros.value < 1000000
  {
    Pow10Values();
    if t.micros.Some? then "." + Pad(t.micros.value, 6) + "Z" else "Z"
  }

  function Render(t: Stamp): string
    requires Valid(t)
  {
    Pow10Values();
    Pad(t.year, 4) + ("-" + (Pad(t.month, 2) + ("-" + (Pad(t.day, 2) + ("T" + (Pad(t.hour, 2) +
      (":" + (Pad(t.minute, 2) + (":" + (Pad(t.second, 2) + Zone(t)))))))))))
  }

  /** The `<` of SQLite's BINARY collation and of Python strings. */
  predicate LexLess(s: string, t: string) {
    if t == "" then false
    else if s == "" then true
    else s[0] < t[0] || (s[0] == t[0] && LexLess(s[1..], t[1..]))
  }

  // ---------- lexicographic order of padded fields ----------

  lemma {:induction false} LexConcat(p: string, q: string, s: string, t: string)
    requires |p| == |q|
    ensures LexLess(p + s, q + t) <==> LexLess(p, q) || (p == q && LexLess(s, t))
  {
    if p == "" {
      assert p + s == s && q + t == t;
    } else {
      assert (p + s)[1..] == p[1..] + s && (q + t)[1..] == q[1..] + t;
      LexConcat(p[1..], q[1..], s, t);
      assert p == q <==> p[0] == q[0] && p[1..] == q[1..] by {
        assert p == [p[0]] + p[1..] && q == [q[0]] + q[1..];
      }
    }
  }

  lemma LexDigit(m: nat, n: nat)
    requires m < 10 && n < 10
    ensures LexLess([Digit(m)], [Digit(n)]) <==> m < n
    ensures [Digit(m)] == [Digit(n)] <==> m == n
  {
    assert [Digit(m)][0] == Digit(m) && [Digit(n)][0] == Digit(n);
  }

  lemma {:induction false} LexPad(m: nat, n: nat, w: nat)
    requires m < Pow10(w) && n < Pow10(w)
    ensures LexLess(Pad(m, w), Pad(n, w)) <==> m < n
    ensures Pad(m, w) == Pad(n, w) <==> m == n
  {
    if w > 0 {
      LexPad(m / 10, n / 10, w - 1);
      LexDigit(m % 10, n % 10);
      LexConcat(Pad(m / 10, w - 1), Pad(n / 10, w - 1), [Digit(m % 10)], [Digit(n % 10)]);
      var u, v := Pad(m, w), Pad(n, w);
      assert u[..w - 1] == Pad(m / 10, w - 1) && v[..w - 1] == Pad(n / 10, w - 1);
      assert u[w - 1..] == [Digit(m % 10)] && v[w - 1..] == [Digit(n % 10)];
    }
  }

  /** One padded field followed by a common separator. */
  lemma LexField(m: nat, n: nat, w: nat, sep: char, s: string, t: string)
    requires m < Pow10(w) && n < Pow10(w)
    ensures LexLess(Pad(m, w) + ([sep] + s), Pad(n, w) + ([sep] + t)) <==> m < n || (m == n && LexLess(s, t))
  {
    LexPad(m, n, w);
    LexConcat(Pad(m, w), Pad(n, w), [sep] + s, [sep] + t);
    LexConcat([sep], [sep], s, t);
  }

  /** The end of a timestamp: a fraction starts with '.', which sorts before 'Z'. */
  predicate ZoneLess(a: Stamp, b: Stamp) {
    match (a.micros, b.micros)
    case (Some(x), Some(y)) => x < y
    case (Some(_), None) => true
    case (None, _) => false
  }

  lemma LexZone(a: Stamp, b: Stamp)
    requires Valid(a) && Valid(b)
    ensures LexLess(Zone(a), Zone(b)) <==> ZoneLess(a, b)
  {
    Pow10Values();
    match (a.micros, b.micros) {
      case (Some(x), Some(y)) =>
        var p, q := Pad(x, 6) + "Z", Pad(y, 6) + "Z";
        assert Zone(a) == "." + p && Zone(b) == "." + q;
        LexConcat(".", ".", p, q);
        LexPad(x, y, 6);
        LexConcat(Pad(x, 6), Pad(y, 6), "Z", "Z");
      case (Some(x), None) =>
        assert Zone(a)[0] == '.' && Zone(b)[0] == 'Z';
      case (None, Some(y)) =>
        assert Zone(a)[0] == 'Z' && Zone(b)[0] == '.';
      case (None, None) =>
    }
  }

  /** Order of the six calendar fields, most significant first. */
  predicate FieldsLess(a: Stamp, b: Stamp) {
    a.year < b.year || (a.year == b.year && (
      a.month < b.month || (a.month == b.month && (
        a.day < b.day || (a.day == b.day && (
          a.hour < b.hour || (a.hour == b.hour && (
            a.minute < b.minute || (a.minute == b.minute && a.second < b.second)))))))))
  }

  predicate SameFields(a: Stamp, b: Stamp) {
    a.(micros := b.micros) == b
  }

  function FromHour(t: Stamp): string
    requires Valid(t)
  {
    Pow10Values();
    Pad(t.hour, 2) + (":" + (Pad(t.minute, 2) + (":" + (Pad(t.second, 2) + Zone(t)))))
  }

  lemma LexFromHour(a: Stamp, b: Stamp)
    requires Valid(a) && Valid(b)
    ensures LexLess(FromHour(a), FromHour(b)) <==>
            a.hour < b.hour || (a.hour == b.hour && (a.minute < b.minute || (a.minute == b.minute &&
              (a.second < b.second || (a.second == b.second && ZoneLess(a, b))))))
  {
    Pow10Values();
    LexZone(a, b);
    LexPad(a.second, b.second, 2);
    LexConcat(Pad(a.second, 2), Pad(b.second, 2), Zone(a), Zone(b));
    LexField(a.minute, b.minute, 2, ':', Pad(a.second, 2) + Zone(a), Pad(b.second, 2) + Zone(b));
    LexField(a.hour, b.hour, 2, ':', Pad(a.minute, 2) + (":" + (Pad(a.second, 2) + Zone(a))),
             Pad(b.minute, 2) + (":" + (Pad(b.second, 2) + Zone(b))));
  }

  lemma LexRender(a: Stamp, b: Stamp)
    requires Valid(a) && Valid(b)
    ensures LexLess(Render(a), Render(b)) <==> FieldsLess(a, b) || (SameFields(a, b) && ZoneLess(a, b))
  {
    Pow10Values();
    LexFromHour(a, b);
    var da, db := Pad(a.day, 2) + ("T" + FromHour(a)), Pad(b.day, 2) + ("T" + FromHour(b));
    LexField(a.day, b.day, 2, 'T', FromHour(a), FromHour(b));
    LexField(a.month, b.month, 2, '-', da, db);
    LexField(a.year, b.year, 4, '-', Pad(a.month, 2) + ("-" + da), Pad(b.month, 2) + ("-" + db));
  }

  // ---------- calendar order is time order ----------

  lemma {:induction false} MonthFits(y: nat, m: nat, n: nat)
    requires 1 <= m < n
    ensures DaysBeforeMonth(y, m) + DaysInMonth(y, m) <= DaysBeforeMonth(y, n)
  {
    if m + 1 < n {
      MonthFits(y, m, n - 1);
    }
  }

  lemma YearLength(y: nat)
    ensures DaysBeforeMonth(y, 12) + DaysInMonth(y, 12) == (if Leap(y) then 366 else 365)
  {
    assert DaysBeforeMonth(y, 2) == 31;
    assert DaysBeforeMonth(y, 3) == 31 + DaysInMonth(y, 2);
    assert DaysBeforeMonth(y, 5) == DaysBeforeMonth(y, 3) + 61;
    assert DaysBeforeMonth(y, 7) == DaysBeforeMonth(y, 5) + 61;
    assert DaysBeforeMonth(y, 9) == DaysBeforeMonth(y, 7) + 62;
    assert DaysBeforeMonth(y, 11) == DaysBeforeMonth(y, 9) + 61;
  }

  lemma {:induction false} YearFits(y: nat, z: nat)
    requires 1 <= y < z
    ensures DaysBeforeYear(y) + (if Leap(y) then 366 else 365) <= DaysBeforeYear(z)
  {
    if y + 1 < z {
      YearFits(y, z - 1);
    }
  }

  function DayNumber(t: Stamp): nat
    requires 1 <= t.year && 1 <= t.month
  {
    DaysBeforeYear(t.year) + DaysBeforeMonth(t.year, t.month) + t.day
  }

  lemma DayOrder(a: Stamp, b: Stamp)
    requires Valid(a) && Valid(b)
    requires a.year < b.year || (a.year == b.year && (a.month < b.month || (a.month == b.month && a.day < b.day)))
    ensures DayNumber(a) < DayNumber(b)
  {
    if a.year < b.year {
      YearFits(a.year, b.year);
      YearLength(a.year);
      if a.month < 12 {
        MonthFits(a.year, a.month, 12);
      }
    } else if a.month < b.month {
      MonthFits(a.year, a.month, b.month);
    }
  }

  lemma FieldOrder(a: Stamp, b: Stamp)
    requires Valid(a) && Valid(b) && FieldsLess(a, b)
    ensures Seconds(a) < Seconds(b)
  {
    if (a.year, a.month, a.day) != (b.year, b.month, b.day) {
      DayOrder(a, b);
    }
  }

  lemma SecondsIsFieldOrder(a: Stamp, b: Stamp)
    requires Valid(a) && Valid(b)
    ensures FieldsLess(a, b) <==> Seconds(a) < Seconds(b)
    ensures SameFields(a, b) <==> Seconds(a) == Seconds(b)
  {
    if FieldsLess(a, b) {
      FieldOrder(a, b);
    } else if FieldsLess(b, a) {
      FieldOrder(b, a);
    }
  }

  // ---------- main results ----------

  /** Two timestamps written by `_now_iso`/`_iso_after` compare as strings exactly as they compare in
      time (section 5.1 of RFC 3339), over the whole range of `datetime`. */
  lemma WholeSecondsSortByTime(a: Stamp, b: Stamp)
    requires Valid(a) && Valid(b) && a.micros.None? && b.micros.None?
    ensures LexLess(Render(a), Render(b)) <==> Earlier(a, b)
  {
    LexRender(a, b);
    SecondsIsFieldOrder(a, b);
  }

  /** With both written forms in play, string order is time order except when the two timestamps share
      a second and are written differently: a fraction on the left always loses, one on the right
      is misread unless it is zero. */
  lemma MixedFormsSortByTime(a: Stamp, b: Stamp)
    requires Valid(a) && Valid(b)
    ensures (LexLess(Render(a), Render(b)) <==> Earlier(a, b)) <==>
            !(Seconds(a) == Seconds(b) && (
                (a.micros.Some? && b.micros.None?) ||
                (a.micros.None? && b.micros.Some? && b.micros.value > 0)))
  {
    LexRender(a, b);
    SecondsIsFieldOrder(a, b);
  }

  /** What `deadline < cutoff` decides when the cutoff is a whole second, as the sweeper's always is:
      a fractional deadline counts as passed from the start of its own second. */
  lemma DeadlineBeforeCutoff(deadline: Stamp, cutoff: Stamp)
    requires Valid(deadline) && Valid(cutoff) && cutoff.micros.None?
    ensures LexLess(Render(deadline), Render(cutoff)) <==>
            Seconds(deadline) < Seconds(cutoff) + (if deadline.micros.Some? then 1 else 0)
  {
    LexRender(deadline, cutoff);
    SecondsIsFieldOrder(deadline, cutoff);
  }

  // ---------- reading a timestamp back ----------

  function DigitValue(c: char): Option<nat> {
    if '0' <= c <= '9' then Some((c - '0') as nat) else None
  }

  function Number(s: string): Option<nat> {
    if s == "" then Some(0)
    else
      match (Number(s[..|s| - 1]), DigitValue(s[|s| - 1]))
      case (Some(n), Some(d)) => Some(10 * n + d)
      case _ => None
  }

  /** `_parse_iso` on the twenty-character form written by this module. */
  function Parse(s: string): Option<Stamp> {
    if |s| != 20 || s[4] != '-' || s[7] != '-' || s[10] != 'T' || s[13] != ':' || s[16] != ':' || s[19] != 'Z' then None
    else
      match (Number(s[..4]), Number(s[5..7]), Number(s[8..10]), Number(s[11..13]), Number(s[14..16]), Number(s[17..19]))
      case (Some(y), Some(mo), Some(d), Some(h), Some(mi), Some(sec)) =>
        var t := Stamp(y, mo, d, h, mi, sec, None);
        if Valid(t) then Some(t) else None
      case _ => None
  }

  lemma {:induction false} NumberOfPad(n: nat, w: nat)
    requires n < Pow10(w)
    ensures Number(Pad(n, w)) == Some(n)
  {
    if w > 0 {
      NumberOfPad(n / 10, w - 1);
      var s := Pad(n, w);
      assert s[..w - 1] == Pad(n / 10, w - 1) && s[w - 1] == Digit(n % 10);
      assert DigitValue(Digit(n % 10)) == Some(n % 10);
    }
  }

  lemma RenderedFields(t: Stamp)
    requires Valid(t) && t.micros.None?
    ensures var s := Render(t);
            && |s| == 20
            && s[4] == '-' && s[7] == '-' && s[10] == 'T' && s[13] == ':' && s[16] == ':' && s[19] == 'Z'
            && s[..4] == Pad(t.year, 4) && s[5..7] == Pad(t.month, 2) && s[8..10] == Pad(t.day, 2)
            && s[11..13] == Pad(t.hour, 2) && s[14..16] == Pad(t.minute, 2) && s[17..19] == Pad(t.second, 2)
  {
  }

  lemma ParseRender(t: Stamp)
    requires Valid(t) && t.micros.None?
    ensures Parse(Render(t)) == Some(t)
  {
    Pow10Values();
    RenderedFields(t);
    NumberOfPad(t.year, 4);
    NumberOfPad(t.month, 2);
    NumberOfPad(t.day, 2);
    NumberOfPad(t.hour, 2);
    NumberOfPad(t.minute, 2);
    NumberOfPad(t.second, 2);
  }
}
