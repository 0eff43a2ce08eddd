/** Times as text: formatTime and parseTime, and why comparing the texts in SQL is comparing the times.

    A time counts nanoseconds from Go's zero time, midnight of January 1 of year 1, in UTC. */
module TimeText {
  import opened Wrappers
  import opened Ordering
  import opened Model

  // ---- Fixed-width decimal fields ----

  function Power10(n: nat): nat
  {
    if n == 0 then 1 else 10 * Power10(n - 1)
  }

  predicate IsDigits(s: string)
  {
    forall i :: 0 <= i < |s| ==> '0' <= s[i] <= '9'
  }

  function Digit(d: nat): (c: char)
    requires d < 10
    ensures '0' <= c <= '9' && (c - '0') as nat == d
  {
    d as char + '0'
  }

  /** Decimal text padded with zeros to at least `width` digits. */
  function Pad(n: nat, width: nat): (s: string)
    ensures |s| >= width && IsDigits(s)
    decreases n, width
  {
    (if n < 10 && width <= 1 then "" else Pad(n / 10, if width == 0 then 0 else width - 1)) + [Digit(n % 10)]
  }

  function Number(s: string): nat
    requires IsDigits(s)
  {
    if s == "" then 0 else Number(s[..|s| - 1]) * 10 + (s[|s| - 1] - '0') as nat
  }

  lemma {:induction false} NumberOfPad(n: nat, width: nat)
    ensures Number(Pad(n, width)) == n
    decreases n, width
  {
    var s := Pad(n, width);
    if n >= 10 || width > 1 {
      NumberOfPad(n / 10, if width == 0 then 0 else width - 1);
      assert s[..|s| - 1] == Pad(n / 10, if width == 0 then 0 else width - 1);
    } else {
      assert s[..|s| - 1] == "";
    }
  }

  lemma {:induction false} PadWidth(n: nat, width: nat)
    requires 0 < width && n < Power10(width)
    ensures |Pad(n, width)| == width
  {
    if width > 1 {
      PadWidth(n / 10, width - 1);
    }
  }

  lemma {:induction false} TextAppend(a: string, b: string, x: string, y: string)
    requires |a| == |b|
    ensures TextLe(a + x, b + y) <==> (TextLe(a, b) && a != b) || (a == b && TextLe(x, y))
  {
    if a == "" {
      assert a + x == x && b + y == y;
    } else {
      TextAppend(a[1..], b[1..], x, y);
      assert (a + x)[1..] == a[1..] + x && (b + y)[1..] == b[1..] + y;
      assert a == [a[0]] + a[1..] && b == [b[0]] + b[1..];
    }
  }

  lemma CharOrder(x: char, y: char)
    requires '0' <= x <= '9' && '0' <= y <= '9'
    ensures TextLe([x], [y]) <==> (x - '0') as nat <= (y - '0') as nat
    ensures x == y <==> (x - '0') as nat == (y - '0') as nat
  {
    assert [x][1..] == "" && [y][1..] == "";
  }

  /** Digit texts of one length compare as their numbers do. */
  lemma {:induction false} NumberOrder(s: string, t: string)
    requires IsDigits(s) && IsDigits(t) && |s| == |t|
    ensures TextLe(s, t) <==> Number(s) <= Number(t)
    ensures s == t <==> Number(s) == Number(t)
    decreases |s|
  {
    if s != "" {
      var n := |s| - 1;
      NumberOrder(s[..n], t[..n]);
      CharOrder(s[n], t[n]);
      TextAppend(s[..n], t[..n], [s[n]], [t[n]]);
      assert s == s[..n] + [s[n]] && t == t[..n] + [t[n]];
    }
  }

  lemma PadOrder(m: nat, n: nat, width: nat)
    requires 0 < width && m < Power10(width) && n < Power10(width)
    ensures TextLe(Pad(m, width), Pad(n, width)) <==> m <= n
  {
    PadWidth(m, width);
    PadWidth(n, width);
    NumberOfPad(m, width);
    NumberOfPad(n, width);
    NumberOrder(Pad(m, width), Pad(n, width));
  }

  // ---- Rows of fields ----

  /** One field of a layout: its width and what follows it. */
  datatype Part = Part(width: nat, suffix: string)

  predicate Fits(values: seq<nat>, layout: seq<Part>)
  {
    |values| == |layout| && forall i :: 0 <= i < |values| ==> 0 < layout[i].width && values[i] < Power10(layout[i].width)
  }

  function Render(values: seq<nat>, layout: seq<Part>): string
    requires |values| == |layout|
  {
    if values == [] then "" else Pad(values[0], layout[0].width) + layout[0].suffix + Render(values[1..], layout[1..])
  }

  /** The field values a text starts with, and the rest of the text. */
  function Read(text: string, layout: seq<Part>): (r: Option<(seq<nat>, string)>)
    ensures r.Some? ==> |r.value.0| == |layout|
    decreases |layout|
  {
    if layout == [] then Some(([], text))
    else
      var w := layout[0].width;
      var k := w + |layout[0].suffix|;
      if |text| < k || !IsDigits(text[..w]) || text[w..k] != layout[0].suffix then None
      else
        var rest := Read(text[k..], layout[1..]);
        if rest.None? then None else Some(([Number(text[..w])] + rest.value.0, rest.value.1))
  }

  lemma ReadField(digits: string, layout: seq<Part>, rest: string)
    requires layout != [] && IsDigits(digits) && |digits| == layout[0].width
    ensures Read(digits + layout[0].suffix + rest, layout) ==
              (var r := Read(rest, layout[1..]); if r.None? then None else Some(([Number(digits)] + r.value.0, r.value.1)))
  {
    var text := digits + layout[0].suffix + rest;
    var k := |digits| + |layout[0].suffix|;
    assert text[..|digits|] == digits && text[|digits|..k] == layout[0].suffix && text[k..] == rest;
  }

  lemma {:induction false} ReadRender(values: seq<nat>, layout: seq<Part>, rest: string)
    requires Fits(values, layout)
    ensures Read(Render(values, layout) + rest, layout) == Some((values, rest))
    decreases |layout|
  {
    if layout == [] {
      assert Render(values, layout) + rest == rest;
    } else {
      var digits, more := Pad(values[0], layout[0].width), Render(values[1..], layout[1..]);
      assert |digits| == layout[0].width && Number(digits) == values[0] by {
        PadWidth(values[0], layout[0].width);
        NumberOfPad(values[0], layout[0].width);
      }
      ReadRender(values[1..], layout[1..], rest);
      ReadField(digits, layout, more + rest);
      assert Render(values, layout) + rest == digits + layout[0].suffix + (more + rest);
      assert values == [values[0]] + values[1..];
    }
  }

  predicate LexLe(a: seq<nat>, b: seq<nat>)
    requires |a| == |b|
  {
    a == [] || a[0] < b[0] || (a[0] == b[0] && LexLe(a[1..], b[1..]))
  }

  /** Two texts of one length decide first, and what follows the same suffix decides when they are equal. */
  lemma PrefixOrder(p: string, q: string, suffix: string, x: string, y: string)
    requires |p| == |q|
    ensures TextLe(p + suffix + x, q + suffix + y) <==> (TextLe(p, q) && p != q) || (p == q && TextLe(x, y))
  {
    TextAppend(p, q, suffix + x, suffix + y);
    TextLeReflexive(suffix);
    TextAppend(suffix, suffix, x, y);
    assert p + (suffix + x) == p + suffix + x;
    assert q + (suffix + y) == q + suffix + y;
  }

  lemma PadEqual(m: nat, n: nat, width: nat)
    requires Pad(m, width) == Pad(n, width)
    ensures m == n
  {
    NumberOfPad(m, width);
    NumberOfPad(n, width);
  }

  /** One field decides first, and then the rest. */
  lemma FieldOrder(m: nat, n: nat, width: nat, suffix: string, x: string, y: string)
    requires 0 < width && m < Power10(width) && n < Power10(width)
    ensures TextLe(Pad(m, width) + suffix + x, Pad(n, width) + suffix + y) <==> m < n || (m == n && TextLe(x, y))
  {
    var p, q := Pad(m, width), Pad(n, width);
    PadOrder(m, n, width);
    PadWidth(m, width);
    PadWidth(n, width);
    PrefixOrder(p, q, suffix, x, y);
    if p == q {
      PadEqual(m, n, width);
    }
  }

  /** Text order of two rendered rows is the order of their values, field by field. */
  lemma {:induction false} RenderOrder(a: seq<nat>, b: seq<nat>, layout: seq<Part>)
    requires Fits(a, layout) && Fits(b, layout)
    ensures TextLe(Render(a, layout), Render(b, layout)) <==> LexLe(a, b)
    decreases |layout|
  {
    if layout != [] {
      RenderOrder(a[1..], b[1..], layout[1..]);
      FieldOrder(a[0], b[0], layout[0].width, layout[0].suffix, Render(a[1..], layout[1..]), Render(b[1..], layout[1..]));
    }
  }

  // ---- The Gregorian calendar ----

  predicate Leap(y: nat)
  {
    y % 4 == 0 && (y % 100 != 0 || y % 400 == 0)
  }

  function DaysInYear(y: nat): nat
  {
    if Leap(y) then 366 else 365
  }

  function DaysInMonth(y: nat, m: nat): nat
  {
    if m == 2 then if Leap(y) then 29 else 28
    else if m in {4, 6, 9, 11} then 30
    else 31
  }

  /** Days from the start of year 1 to the start of year `y`. */
  function DaysBeforeYear(y: nat): nat
  {
    if y <= 1 then 0 else DaysBeforeYear(y - 1) + DaysInYear(y - 1)
  }

  function DaysBeforeMonth(y: nat, m: nat): nat
  {
    if m <= 1 then 0 else DaysBeforeMonth(y, m - 1) + DaysInMonth(y, m - 1)
  }

  /** Year and day of the year, counting `day` from the start of year `y`. */
  function YearFrom(day: nat, y: nat): (nat, nat)
    decreases day
  {
    if day < DaysInYear(y) then (y, day) else YearFrom(day - DaysInYear(y), y + 1)
  }

  function MonthFrom(day: nat, y: nat, m: nat): (nat, nat)
    decreases day
  {
    if day < DaysInMonth(y, m) then (m, day) else MonthFrom(day - DaysInMonth(y, m), y, m + 1)
  }

  lemma {:induction false} YearFromIsRight(day: nat, y: nat)
    requires y >= 1
    ensures var (year, rest) := YearFrom(day, y);
            year >= y && rest < DaysInYear(year) && DaysBeforeYear(y) + day == DaysBeforeYear(year) + rest
    decreases day
  {
    if day >= DaysInYear(y) {
      YearFromIsRight(day - DaysInYear(y), y + 1);
    }
  }

  lemma {:induction false} MonthFromIsRight(day: nat, y: nat, m: nat)
    requires m >= 1
    ensures var (month, rest) := MonthFrom(day, y, m);
            month >= m && rest < DaysInMonth(y, month) && DaysBeforeMonth(y, m) + day == DaysBeforeMonth(y, month) + rest
    decreases day
  {
    if day >= DaysInMonth(y, m) {
      MonthFromIsRight(day - DaysInMonth(y, m), y, m + 1);
    }
  }

  lemma {:induction false} YearsAscend(y: nat, z: nat)
    requires 1 <= y < z
    ensures DaysBeforeYear(y) + DaysInYear(y) <= DaysBeforeYear(z)
    decreases z
  {
    if y < z - 1 {
      YearsAscend(y, z - 1);
    }
  }

  lemma {:induction false} MonthsAscend(year: nat, m: nat, n: nat)
    requires 1 <= m < n
    ensures DaysBeforeMonth(year, m) + DaysInMonth(year, m) <= DaysBeforeMonth(year, n)
    decreases n
  {
    if m < n - 1 {
      MonthsAscend(year, m, n - 1);
    }
  }

  lemma TwelveMonths(y: nat)
    ensures DaysBeforeMonth(y, 13) == DaysInYear(y)
  {
    assert DaysBeforeMonth(y, 3) == DaysBeforeMonth(y, 2) + DaysInMonth(y, 2);
    assert DaysBeforeMonth(y, 5) == DaysBeforeMonth(y, 3) + 61;
    assert DaysBeforeMonth(y, 7) == DaysBeforeMonth(y, 5) + 61;
    assert DaysBeforeMonth(y, 9) == DaysBeforeMonth(y, 7) + 62;
    assert DaysBeforeMonth(y, 11) == DaysBeforeMonth(y, 9) + 61;
  }

  lemma QuotientStep(n: nat)
    requires n > 0
    ensures n / 4 == (n - 1) / 4 + (if n % 4 == 0 then 1 else 0)
    ensures n / 100 == (n - 1) / 100 + (if n % 100 == 0 then 1 else 0)
    ensures n / 400 == (n - 1) / 400 + (if n % 400 == 0 then 1 else 0)
  {
  }

  function Leaps(n: nat): int
  {
    n / 4 - n / 100 + n / 400
  }

  lemma Multiples(m: nat)
    ensures (100 * m) % 100 == 0 && (4 * m) % 4 == 0
  {
  }

  lemma Divisors(n: nat)
    ensures n % 400 == 0 ==> n % 100 == 0
    ensures n % 100 == 0 ==> n % 4 == 0
  {
    if n % 400 == 0 {
      assert n == 100 * (4 * (n / 400));
      Multiples(4 * (n / 400));
    }
    if n % 100 == 0 {
      assert n == 4 * (25 * (n / 100));
      Multiples(25 * (n / 100));
    }
  }

  lemma LeapStep(n: nat)
    requires n > 0
    ensures Leaps(n) == Leaps(n - 1) + (if Leap(n) then 1 else 0)
  {
    QuotientStep(n);
    Divisors(n);
  }

  lemma {:induction false} DaysAndLeaps(y: nat)
    requires y >= 1
    ensures DaysBeforeYear(y) == 365 * (y - 1) + Leaps(y - 1)
  {
    if y > 1 {
      DaysAndLeaps(y - 1);
      LeapStep(y - 1);
    }
  }

  /** The Gregorian count of days: one in four years is leap, but one in a hundred is not, but one in four hundred is. */
  lemma DaysBeforeYearIs(y: nat)
    requires y >= 1
    ensures DaysBeforeYear(y) == 365 * (y - 1) + (y - 1) / 4 - (y - 1) / 100 + (y - 1) / 400
  {
    DaysAndLeaps(y);
  }

  /** A year has one more day before its months from March on when it is leap. */
  lemma DaysBeforeMonthIs(y: nat, m: nat)
    requires 1 <= m <= 12
    ensures DaysBeforeMonth(y, m)
            == [0, 31, 59, 90, 120, 151, 181, 212, 243, 273, 304, 334][m - 1]
               + (if m > 2 && y % 4 == 0 && (y % 100 != 0 || y % 400 == 0) then 1 else 0)
  {
    assert DaysBeforeMonth(y, 3) == DaysBeforeMonth(y, 2) + DaysInMonth(y, 2);
    assert DaysBeforeMonth(y, 5) == DaysBeforeMonth(y, 3) + 61;
    assert DaysBeforeMonth(y, 7) == DaysBeforeMonth(y, 5) + 61;
    assert DaysBeforeMonth(y, 9) == DaysBeforeMonth(y, 7) + 62;
    assert DaysBeforeMonth(y, 11) == DaysBeforeMonth(y, 9) + 61;
  }

  // ---- The fields of a time ----

  predicate ValidFields(f: seq<nat>)
  {
    && |f| == 7 && 1 <= f[0] && 1 <= f[1] <= 12 && 1 <= f[2] <= DaysInMonth(f[0], f[1])
    && f[3] < 24 && f[4] < 60 && f[5] < 60 && f[6] < 1_000_000_000
  }

  function Nanos(days: nat, seconds: nat, nanos: nat): nat
  {
    (days * 86_400 + seconds) * 1_000_000_000 + nanos
  }

  /** The time with this year, month, day, hour, minute, second and nanosecond. */
  function Instant(f: seq<nat>): Time
    requires ValidFields(f)
  {
    Nanos(DaysBeforeYear(f[0]) + DaysBeforeMonth(f[0], f[1]) + f[2] - 1, (f[3] * 60 + f[4]) * 60 + f[5], f[6])
  }

  /** Year, month, day, hour, minute, second and nanosecond of a time. */
  function Fields(t: Time): seq<nat>
  {
    var (year, yearDay) := YearFrom(t / 86_400_000_000_000, 1);
    var (month, day) := MonthFrom(yearDay, year, 1);
    var seconds := t / 1_000_000_000 % 86_400;
    [year, month, day + 1, seconds / 3600, seconds / 60 % 60, seconds % 60, t % 1_000_000_000]
  }

  /** The Unix epoch is 62135596800 seconds after Go's zero time, the start of year 1. */
  lemma UnixEpoch()
    ensures Instant([1970, 1, 1, 0, 0, 0, 0]) == 62_135_596_800 * 1_000_000_000
    ensures Instant([1, 1, 1, 0, 0, 0, 0]) == 0
  {
    DaysBeforeYearIs(1970);
    DaysBeforeYearIs(1);
  }

  /** Every time is the instant of its fields. */
  lemma FieldsOfInstant(t: Time)
    ensures ValidFields(Fields(t)) && Instant(Fields(t)) == t
  {
    var (year, yearDay) := YearFrom(t / 86_400_000_000_000, 1);
    var (month, day) := MonthFrom(yearDay, year, 1);
    YearFromIsRight(t / 86_400_000_000_000, 1);
    MonthFromIsRight(yearDay, year, 1);
    TwelveMonths(year);
    if month > 12 {
      if month > 13 {
        MonthsAscend(year, 13, month);
      }
      assert false;
    }
    ClockParts(t);
  }

  lemma ClockParts(t: Time)
    ensures var s := t / 1_000_000_000 % 86_400;
            t == Nanos(t / 86_400_000_000_000, s, t % 1_000_000_000)
            && s == (s / 3600 * 60 + s / 60 % 60) * 60 + s % 60 && s / 3600 < 24
  {
    var u := t / 1_000_000_000;
    assert u / 86_400 == t / 86_400_000_000_000;
  }

  lemma NanosAscend(d: nat, s: nat, m: nat, e: nat, t: nat, n: nat)
    requires s < 86_400 && t < 86_400 && m < 1_000_000_000 && n < 1_000_000_000
    requires d < e || (d == e && (s < t || (s == t && m < n)))
    ensures Nanos(d, s, m) < Nanos(e, t, n)
  {
  }

  lemma DateAscends(f: seq<nat>, g: seq<nat>)
    requires ValidFields(f) && ValidFields(g)
    ensures var d := DaysBeforeYear(f[0]) + DaysBeforeMonth(f[0], f[1]) + f[2];
            var e := DaysBeforeYear(g[0]) + DaysBeforeMonth(g[0], g[1]) + g[2];
            (f[0] < g[0] || (f[0] == g[0] && (f[1] < g[1] || (f[1] == g[1] && f[2] < g[2])))) ==> d < e
  {
    if f[0] < g[0] {
      YearsAscend(f[0], g[0]);
      TwelveMonths(f[0]);
      MonthsAscend(f[0], f[1], 13);
    } else if f[0] == g[0] && f[1] < g[1] {
      MonthsAscend(f[0], f[1], g[1]);
    }
  }

  lemma LaterField(f: seq<nat>, g: seq<nat>, k: nat)
    requires ValidFields(f) && ValidFields(g) && k < 7 && f[k] < g[k] && forall i :: 0 <= i < k ==> f[i] == g[i]
    ensures Instant(f) < Instant(g)
  {
    DateAscends(f, g);
    NanosAscend(DaysBeforeYear(f[0]) + DaysBeforeMonth(f[0], f[1]) + f[2] - 1, (f[3] * 60 + f[4]) * 60 + f[5], f[6],
                DaysBeforeYear(g[0]) + DaysBeforeMonth(g[0], g[1]) + g[2] - 1, (g[3] * 60 + g[4]) * 60 + g[5], g[6]);
  }

  lemma {:induction false} FirstDifference(f: seq<nat>, g: seq<nat>) returns (k: nat)
    requires |f| == |g| && f != g && LexLe(f, g)
    ensures k < |f| && f[k] < g[k] && forall i :: 0 <= i < k ==> f[i] == g[i]
  {
    if f[0] < g[0] {
      k := 0;
    } else {
      assert f == [f[0]] + f[1..] && g == [g[0]] + g[1..];
      k := FirstDifference(f[1..], g[1..]);
      assert forall i :: 0 <= i < k ==> f[1..][i] == g[1..][i];
      forall i | 0 <= i < k + 1 ensures f[i] == g[i] {
        assert i > 0 ==> f[1..][i - 1] == g[1..][i - 1];
      }
      k := k + 1;
    }
  }

  lemma {:induction false} LexLeTotal(f: seq<nat>, g: seq<nat>)
    requires |f| == |g|
    ensures LexLe(f, g) || LexLe(g, f)
  {
    if f != [] {
      LexLeTotal(f[1..], g[1..]);
    }
  }

  /** The calendar is in order: a smaller row of fields is an earlier time. */
  lemma InstantAscends(f: seq<nat>, g: seq<nat>)
    requires ValidFields(f) && ValidFields(g)
    ensures LexLe(f, g) <==> Instant(f) <= Instant(g)
    ensures Instant(f) == Instant(g) ==> f == g
  {
    LexLeTotal(f, g);
    if f != g {
      if LexLe(f, g) {
        var k := FirstDifference(f, g);
        LaterField(f, g, k);
      }
      if LexLe(g, f) {
        var k := FirstDifference(g, f);
        LaterField(g, f, k);
      }
    }
  }

  // ---- formatTime and parseTime ----

  const MINUTES := [Part(4, "-"), Part(2, "-"), Part(2, "T"), Part(2, ":"), Part(2, ":")]
  const CLOCK := MINUTES + [Part(2, "")]
  const LAYOUT := MINUTES + [Part(2, "."), Part(9, "Z")]

  function FormatTime(t: Time): string
  {
    if t == 0 then "" else Render(Fields(t), LAYOUT)
  }

  /** The nanoseconds of a fraction's digits; digits beyond the ninth are dropped. */
  function Nanoseconds(digits: string): nat
    requires IsDigits(digits)
  {
    if |digits| <= 9 then Number(digits) * Power10(9 - |digits|) else Number(digits[..9])
  }

  /** What follows the seconds: nothing, or a point and digits, and then the zone Z. */
  function ReadFraction(rest: string): Option<nat>
  {
    if rest == "Z" then Some(0)
    else if |rest| >= 3 && rest[0] == '.' && rest[|rest| - 1] == 'Z' && IsDigits(rest[1..|rest| - 1])
    then Some(Nanoseconds(rest[1..|rest| - 1]))
    else None
  }

  /** The zero time for a text that is no time. */
  function ParseTime(s: string): Time
  {
    var clock := Read(s, CLOCK);
    if clock.None? then 0
    else
      var fraction := ReadFraction(clock.value.1);
      if fraction.None? || !ValidFields(clock.value.0 + [fraction.value]) then 0
      else Instant(clock.value.0 + [fraction.value])
  }

  /** Years up to 9999. */
  predicate FourDigitYear(t: Time)
  {
    Fields(t)[0] <= 9999
  }

  lemma PowersOfTen()
    ensures Power10(2) == 100 && Power10(4) == 10_000 && Power10(9) == 1_000_000_000
  {
    assert Power10(4) == 100 * Power10(2);
    assert Power10(6) == 100 * Power10(4);
    assert Power10(8) == 100 * Power10(6);
  }

  lemma FieldsFit(t: Time)
    requires FourDigitYear(t)
    ensures Fits(Fields(t), LAYOUT) && Fits(Fields(t)[..6], CLOCK)
  {
    FieldsOfInstant(t);
    PowersOfTen();
  }

  lemma RenderTwo(v: nat, p: Part, w: nat, q: Part)
    ensures Render([v], [p]) == Pad(v, p.width) + p.suffix
    ensures Render([v, w], [p, q]) == Pad(v, p.width) + p.suffix + (Pad(w, q.width) + q.suffix)
  {
    assert [v][1..] == [] && [w][1..] == [] && [v, w][1..] == [w] && [p, q][1..] == [q];
    assert Render([v], [p]) == Pad(v, p.width) + p.suffix + "";
    assert Render([w], [q]) == Pad(w, q.width) + q.suffix + "";
  }

  lemma Regroup(x: string, y: string, z: string)
    ensures x + (y + "." + (z + "Z")) == (x + (y + "")) + ("." + z + "Z")
  {
    assert y + "" == y;
  }

  lemma RenderSplits(f: seq<nat>)
    requires |f| == 7
    ensures Render(f, LAYOUT) == Render(f[..6], CLOCK) + ("." + Pad(f[6], 9) + "Z")
  {
    var point, zone, plain := Part(2, "."), Part(9, "Z"), Part(2, "");
    RenderAppend(f[..5], [f[5], f[6]], MINUTES, [point, zone]);
    RenderAppend(f[..5], [f[5]], MINUTES, [plain]);
    assert f == f[..5] + [f[5], f[6]] && f[..6] == f[..5] + [f[5]];
    RenderTwo(f[5], point, f[6], zone);
    RenderTwo(f[5], plain, f[6], zone);
    Regroup(Render(f[..5], MINUTES), Pad(f[5], 2), Pad(f[6], 9));
  }

  lemma {:induction false} RenderAppend(a: seq<nat>, b: seq<nat>, x: seq<Part>, y: seq<Part>)
    requires |a| == |x| && |b| == |y|
    ensures Render(a + b, x + y) == Render(a, x) + Render(b, y)
    decreases |a|
  {
    if a == [] {
      assert a + b == b && x + y == y;
      assert Render(a, x) + Render(b, y) == Render(b, y);
    } else {
      var head, tail := Pad(a[0], x[0].width) + x[0].suffix, Render(a[1..], x[1..]);
      RenderAppend(a[1..], b, x[1..], y);
      assert (a + b)[0] == a[0] && (x + y)[0] == x[0];
      assert (a + b)[1..] == a[1..] + b && (x + y)[1..] == x[1..] + y;
      assert head + (tail + Render(b, y)) == (head + tail) + Render(b, y);
    }
  }

  lemma PointAndDigits(digits: string)
    requires digits != "" && IsDigits(digits)
    ensures ReadFraction("." + digits + "Z") == Some(Nanoseconds(digits))
  {
    var rest := "." + digits + "Z";
    assert rest[1..|rest| - 1] == digits;
  }

  lemma NinthDigit(n: nat)
    requires n < 1_000_000_000
    ensures ReadFraction("." + Pad(n, 9) + "Z") == Some(n)
  {
    PowersOfTen();
    PadWidth(n, 9);
    NumberOfPad(n, 9);
    PointAndDigits(Pad(n, 9));
  }

  lemma ParseRendered(f: seq<nat>, rest: string)
    requires ValidFields(f) && Fits(f[..6], CLOCK) && ReadFraction(rest) == Some(f[6])
    ensures ParseTime(Render(f[..6], CLOCK) + rest) == Instant(f)
  {
    ReadRender(f[..6], CLOCK, rest);
    assert f[..6] + [f[6]] == f;
  }

  /** parseTime inverts formatTime. */
  lemma ParseInvertsFormat(t: Time)
    requires FourDigitYear(t)
    ensures ParseTime(FormatTime(t)) == t
  {
    if t != 0 {
      var f := Fields(t);
      FieldsFit(t);
      FieldsOfInstant(t);
      RenderSplits(f);
      NinthDigit(f[6]);
      ParseRendered(f, "." + Pad(f[6], 9) + "Z");
    }
  }

  /** Text order is time order, so an SQL comparison of two stored times is a comparison of the times. */
  lemma TextOrderIsTimeOrder(a: Time, b: Time)
    requires FourDigitYear(a) && FourDigitYear(b)
    ensures TextLe(FormatTime(a), FormatTime(b)) <==> a <= b
    ensures FormatTime(a) == FormatTime(b) <==> a == b
  {
    ParseInvertsFormat(a);
    ParseInvertsFormat(b);
    if a == 0 || b == 0 {
      assert a != 0 ==> |FormatTime(a)| > 0;
    } else {
      FieldsFit(a);
      FieldsFit(b);
      FieldsOfInstant(a);
      FieldsOfInstant(b);
      RenderOrder(Fields(a), Fields(b), LAYOUT);
      InstantAscends(Fields(a), Fields(b));
    }
  }

  /** The SQL lease guard (lease_until IS NULL OR lease_until >= now) accepts exactly the leases that the Before checks of
      assertJobOwnedTx and ownershipError do not call lost. */
  lemma LeaseGuardsAgree(leaseUntil: Option<Time>, now: Time)
    requires FourDigitYear(now) && (leaseUntil.Some? ==> FourDigitYear(leaseUntil.value))
    ensures (leaseUntil.None? || TextLe(FormatTime(now), FormatTime(leaseUntil.value)))
            <==> !(leaseUntil.Some? && ParseTime(FormatTime(leaseUntil.value)) < now)
  {
    if leaseUntil.Some? {
      TextOrderIsTimeOrder(now, leaseUntil.value);
      ParseInvertsFormat(leaseUntil.value);
    }
  }

  // ---- RFC 3339 with as many digits as needed ----

  /** Digits without the zeros at their end. */
  function Trimmed(s: string): (r: string)
    ensures r <= s && (IsDigits(s) ==> IsDigits(r))
  {
    if s != "" && s[|s| - 1] == '0' then Trimmed(s[..|s| - 1]) else s
  }

  function FractionText(nanos: nat): string
  {
    if nanos == 0 then "Z" else "." + Trimmed(Pad(nanos, 9)) + "Z"
  }

  /** A time as RFC3339Nano prints it. */
  function NanoText(t: Time): string
  {
    Render(Fields(t)[..6], CLOCK) + FractionText(Fields(t)[6])
  }

  lemma OneZeroMore(r: string)
    requires IsDigits(r) && |r| < 9
    ensures Nanoseconds(r + "0") == Nanoseconds(r)
  {
    var s := r + "0";
    var n, p := Number(r), Power10(8 - |r|);
    assert s[..|s| - 1] == r && Number(s) == n * 10;
    assert Nanoseconds(r) == n * (10 * p) && Nanoseconds(s) == (n * 10) * p;
  }

  lemma {:induction false} TrimmingKeepsValue(s: string)
    requires IsDigits(s) && |s| <= 9
    ensures Nanoseconds(Trimmed(s)) == Nanoseconds(s)
  {
    if s != "" && s[|s| - 1] == '0' {
      TrimmingKeepsValue(s[..|s| - 1]);
      OneZeroMore(s[..|s| - 1]);
      assert s == s[..|s| - 1] + "0";
    }
  }

  lemma FractionReads(n: nat)
    requires n < 1_000_000_000
    ensures ReadFraction(FractionText(n)) == Some(n)
  {
    if n > 0 {
      var digits := Pad(n, 9);
      PowersOfTen();
      PadWidth(n, 9);
      NumberOfPad(n, 9);
      TrimmingKeepsValue(digits);
      assert Nanoseconds("") == 0;
      PointAndDigits(Trimmed(digits));
    }
  }

  /** parseTime also reads what RFC3339Nano prints, the format of its fallback. */
  lemma ParseReadsNanoText(t: Time)
    requires FourDigitYear(t)
    ensures ParseTime(NanoText(t)) == t
  {
    var f := Fields(t);
    FieldsFit(t);
    FieldsOfInstant(t);
    FractionReads(f[6]);
    ParseRendered(f, FractionText(f[6]));
  }

  /** But such texts do not sort: a whole second printed this way comes after every later time of the same second, so a
      lease stored that way would look unexpired for up to a second too long. */
  lemma ShortTextsMisorder(t: Time, later: Time)
    requires FourDigitYear(t) && t % 1_000_000_000 == 0 && t < later < t + 1_000_000_000
    ensures ParseTime(NanoText(t)) == t
    ensures TextLe(FormatTime(later), NanoText(t)) && FormatTime(later) != NanoText(t)
  {
    ParseReadsNanoText(t);
    SameSecond(t, later);
    var c, f := Render(Fields(t)[..6], CLOCK), Fields(later);
    RenderSplits(f);
    var x, y := "." + Pad(f[6], 9) + "Z", "Z";
    assert x[0] < y[0];
    TextAppend(c, c, x, y);
    assert |x| > |y|;
  }

  lemma SameSecond(t: Time, later: Time)
    requires t % 1_000_000_000 == 0 && t <= later < t + 1_000_000_000
    ensures Fields(later)[..6] == Fields(t)[..6]
  {
    assert later / 1_000_000_000 == t / 1_000_000_000;
    assert later / 86_400_000_000_000 == t / 86_400_000_000_000 by { ClockParts(t); ClockParts(later); }
  }

  /** The bound on the year is needed: the first moment of year 10000 sorts before the last second of year 9999. */
  lemma FiveDigitYearsMisorder(early: Time, late: Time)
    requires Fields(early)[0] == 9999 && Fields(late)[0] == 10_000
    ensures early < late && TextLe(FormatTime(late), FormatTime(early)) && FormatTime(late) != FormatTime(early)
  {
    FieldsOfInstant(early);
    FieldsOfInstant(late);
    InstantAscends(Fields(early), Fields(late));
    YearTexts();
    assert DaysBeforeYear(9999) > 0 by { YearsAscend(1, 9999); }
    var x, y := FormatTime(early), FormatTime(late);
    assert x[0] == Pad(9999, 4)[0] && y[0] == Pad(10_000, 4)[0];
  }

  lemma YearTexts()
    ensures Pad(9999, 4)[0] == '9' && Pad(10_000, 4)[0] == '1'
  {
    assert Pad(9, 1) == "9" && Pad(99, 2) == "99" && Pad(999, 3) == "999";
    assert Pad(1, 0) == "1" && Pad(10, 1) == "10" && Pad(100, 2) == "100" && Pad(1000, 3) == "1000";
  }
}
