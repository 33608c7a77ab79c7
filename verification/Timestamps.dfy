/** Normalized timestamps: how they render, what their string order means, and what the sort costs. */
module Timestamps {
  import opened Basics

  /** A UTC instant as datetime keeps it. */
  datatype Instant = Instant(year: nat, month: nat, day: nat, hour: nat, minute: nat, second: nat, micro: nat)

  predicate Leap(y: nat) {
    y % 4 == 0 && (y % 100 != 0 || y % 400 == 0)
  }

  function DaysIn(y: nat, m: nat): nat {
    if m == 2 then (if Leap(y) then 29 else 28)
    else if m in {4, 6, 9, 11} then 30 else 31
  }

  predicate ValidInstant(t: Instant) {
    && 1 <= t.year <= 9999 && 1 <= t.month <= 12 && 1 <= t.day <= DaysIn(t.year, t.month)
    && t.hour < 24 && t.minute < 60 && t.second < 60 && t.micro < 1000000
  }

  // ---- real time: microseconds since the beginning of year 1 ----

  function DaysBeforeYear(y: nat): nat
    requires y >= 1
  {
    if y == 1 then 0 else DaysBeforeYear(y - 1) + (if Leap(y - 1) then 366 else 365)
  }

  function DaysBeforeMonth(y: nat, m: nat): nat
    requires m >= 1
  {
    if m == 1 then 0 else DaysBeforeMonth(y, m - 1) + DaysIn(y, m - 1)
  }

  function DayNumber(t: Instant): nat
    requires t.year >= 1 && t.month >= 1
  {
    DaysBeforeYear(t.year) + DaysBeforeMonth(t.year, t.month) + t.day
  }

  /** Whole seconds since the epoch of the calendar. */
  function Seconds(t: Instant): nat
    requires t.year >= 1 && t.month >= 1
  {
    ((DayNumber(t) * 24 + t.hour) * 60 + t.minute) * 60 + t.second
  }

  function Micros(t: Instant): nat
    requires t.year >= 1 && t.month >= 1
  {
    Seconds(t) * 1000000 + t.micro
  }

  lemma {:induction false} YearsGrow(y: nat, z: nat)
    requires 1 <= y < z
    ensures DaysBeforeYear(y) + (if Leap(y) then 366 else 365) <= DaysBeforeYear(z)
    decreases z
  {
    if z > y + 1 { YearsGrow(y, z - 1); }
  }

  lemma {:induction false} MonthsGrow(y: nat, m: nat, n: nat)
    requires 1 <= m < n
    ensures DaysBeforeMonth(y, m) + DaysIn(y, m) <= DaysBeforeMonth(y, n)
    decreases n
  {
    if n > m + 1 { MonthsGrow(y, m, n - 1); }
  }

  lemma YearLength(y: nat)
    ensures DaysBeforeMonth(y, 12) + DaysIn(y, 12) == if Leap(y) then 366 else 365
  {
    assert DaysBeforeMonth(y, 2) == 31;
    assert DaysBeforeMonth(y, 3) == 31 + DaysIn(y, 2);
    assert DaysBeforeMonth(y, 5) == DaysBeforeMonth(y, 3) + 61;
    assert DaysBeforeMonth(y, 7) == DaysBeforeMonth(y, 5) + 61;
    assert DaysBeforeMonth(y, 9) == DaysBeforeMonth(y, 7) + 62;
    assert DaysBeforeMonth(y, 11) == DaysBeforeMonth(y, 9) + 61;
  }

  /** A day never reaches past its own year. */
  lemma DayInYear(t: Instant)
    requires ValidInstant(t)
    ensures DaysBeforeMonth(t.year, t.month) + t.day <= if Leap(t.year) then 366 else 365
  {
    YearLength(t.year);
    if t.month < 12 { MonthsGrow(t.year, t.month, 12); }
  }

  /** The Gregorian rule in closed form. */
  lemma {:induction false} YearsExact(y: nat)
    requires y >= 1
    ensures DaysBeforeYear(y) == 365 * (y - 1) + (y - 1) / 4 - (y - 1) / 100 + (y - 1) / 400
  {
    if y > 1 {
      YearsExact(y - 1);
      var n := y - 1;
      NextQuotient(n, 4);
      NextQuotient(n, 100);
      NextQuotient(n, 400);
      LeapCount(n);
    }
  }

  lemma EpochDay()
    ensures DayNumber(Instant(1970, 1, 1, 0, 0, 0, 0)) == 719163
  {
    YearsExact(1970);
  }

  lemma LeapCount(n: nat)
    ensures (if Leap(n) then 1 else 0) ==
      (if n % 4 == 0 then 1 else 0) - (if n % 100 == 0 then 1 else 0) + (if n % 400 == 0 then 1 else 0)
  {
    if n % 100 == 0 { MultipleOf(n, 4, 25); }
    if n % 400 == 0 { MultipleOf(n, 100, 4); }
  }

  lemma MultipleOf(n: nat, d: nat, e: nat)
    requires d >= 1 && e >= 1 && d * e >= 1 && n % (d * e) == 0
    ensures n % d == 0
  {
    var q := n / (d * e);
    assert n == (d * e) * q == d * (e * q);
    Quotient(n, d, e * q, 0);
  }

  lemma NextQuotient(n: int, d: int)
    requires n >= 1 && d >= 1
    ensures n / d == (n - 1) / d + if n % d == 0 then 1 else 0
  {
    var q, r := n / d, n % d;
    assert n == q * d + r;
    if r > 0 {
      assert n - 1 == q * d + (r - 1);
      Quotient(n - 1, d, q, r - 1);
    } else {
      assert n - 1 == (q - 1) * d + (d - 1);
      Quotient(n - 1, d, q - 1, d - 1);
    }
  }

  lemma Quotient(n: int, d: int, q: int, r: int)
    requires d >= 1 && n == q * d + r && 0 <= r < d
    ensures n / d == q
  {
    var k := n / d - q;
    assert k * d == r - n % d;
    AtLeastOnce(k, d);
  }

  lemma AtLeastOnce(k: int, d: int)
    requires d >= 1
    ensures (k >= 1 ==> k * d >= d) && (k <= -1 ==> k * d <= -d)
  {
  }

  lemma MonthsExact(y: nat, m: nat)
    requires 1 <= m <= 12
    ensures DaysBeforeMonth(y, m) ==
      [0, 31, 59, 90, 120, 151, 181, 212, 243, 273, 304, 334][m - 1] + if m > 2 && Leap(y) then 1 else 0
  {
    if m > 1 { MonthsExact(y, m - 1); }
  }

  /** A microsecond is a microsecond: how far apart two instants are, from their days and their times of day. */
  lemma MicrosExact(t: Instant, u: Instant)
    requires ValidInstant(t) && ValidInstant(u)
    ensures Micros(u) - Micros(t) ==
      (DayNumber(u) - DayNumber(t)) * 86_400_000_000 + (u.hour - t.hour) * 3_600_000_000
      + (u.minute - t.minute) * 60_000_000 + (u.second - t.second) * 1_000_000 + (u.micro - t.micro)
  {
  }

  // ---- rendering ----

  function Digit(d: nat): char
    requires d < 10
  {
    '0' + d as char
  }

  /** n in exactly w digits. */
  function Pad(n: nat, w: nat): (s: string)
    ensures |s| == w
  {
    if w == 0 then "" else Pad(n / 10, w - 1) + [Digit(n % 10)]
  }

  /** Numbers in fixed widths, each followed by its separator, then the tail. */
  function Render(ns: seq<nat>, ws: seq<nat>, seps: seq<string>, tail: string): string
    requires |ns| == |ws| == |seps|
  {
    if ns == [] then tail else Pad(ns[0], ws[0]) + seps[0] + Render(ns[1..], ws[1..], seps[1..], tail)
  }

  const WIDTHS: seq<nat> := [4, 2, 2, 2, 2, 2]
  const SEPARATORS: seq<string> := ["-", "-", "T", ":", ":", ""]

  function Fields(t: Instant): seq<nat> {
    [t.year, t.month, t.day, t.hour, t.minute, t.second]
  }

  function Suffix(micro: nat): string {
    if micro == 0 then "Z" else "." + Pad(micro, 6) + "Z"
  }

  /** normalize_timestamp: isoformat drops a zero fraction, and +00:00 becomes Z. */
  function Normalize(t: Instant): string {
    Render(Fields(t), WIDTHS, SEPARATORS, Suffix(t.micro))
  }

  // ---- string order ----

  /** Python's string order. */
  predicate Less(a: string, b: string) {
    if b == "" then false
    else if a == "" then true
    else a[0] < b[0] || (a[0] == b[0] && Less(a[1..], b[1..]))
  }

  function Pow10(w: nat): nat {
    if w == 0 then 1 else 10 * Pow10(w - 1)
  }

  lemma {:induction false} LessSamePrefix(p: string, a: string, b: string)
    ensures Less(p + a, p + b) == Less(a, b)
  {
    if p == "" {
      assert p + a == a && p + b == b;
    } else {
      LessSamePrefix(p[1..], a, b);
      assert (p + a)[1..] == p[1..] + a && (p + b)[1..] == p[1..] + b;
    }
  }

  lemma {:induction false} LessDecided(p: string, q: string, a: string, b: string)
    requires |p| == |q| && p != q
    ensures Less(p + a, q + b) == Less(p, q)
  {
    assert p != "" && q != "";
    assert (p + a)[0] == p[0] && (q + b)[0] == q[0];
    assert (p + a)[1..] == p[1..] + a && (q + b)[1..] == q[1..] + b;
    if p[0] == q[0] {
      assert p == [p[0]] + p[1..] && q == [q[0]] + q[1..];
      LessDecided(p[1..], q[1..], a, b);
    }
  }

  lemma {:induction false} PadOrder(n: nat, m: nat, w: nat)
    requires n < Pow10(w) && m < Pow10(w)
    ensures Less(Pad(n, w), Pad(m, w)) <==> n < m
    ensures Pad(n, w) == Pad(m, w) <==> n == m
  {
    if w > 0 {
      var p, q := Pad(n / 10, w - 1), Pad(m / 10, w - 1);
      var c, d := [Digit(n % 10)], [Digit(m % 10)];
      PadOrder(n / 10, m / 10, w - 1);
      if p == q {
        LessSamePrefix(p, c, d);
        assert Less(c, d) <==> n % 10 < m % 10;
        assert Pad(n, w)[w - 1] == c[0] && Pad(m, w)[w - 1] == d[0];
      } else {
        LessDecided(p, q, c, d);
        assert Pad(n, w)[..w - 1] == p && Pad(m, w)[..w - 1] == q;
      }
    }
  }

  predicate Lex(ns: seq<nat>, ms: seq<nat>)
    requires |ns| == |ms|
  {
    ns != [] && (ns[0] < ms[0] || (ns[0] == ms[0] && Lex(ns[1..], ms[1..])))
  }

  lemma Regroup(a: string, b: string, c: string)
    ensures a + b + c == a + (b + c)
  {
  }

  /** Fixed-width rendering keeps order: field by field, then the tails. */
  lemma {:induction false} RenderOrder(ns: seq<nat>, ms: seq<nat>, ws: seq<nat>, seps: seq<string>, a: string,
      b: string)
    requires |ns| == |ms| == |ws| == |seps|
    requires forall i :: 0 <= i < |ns| ==> ns[i] < Pow10(ws[i]) && ms[i] < Pow10(ws[i])
    ensures Less(Render(ns, ws, seps, a), Render(ms, ws, seps, b)) <==> Lex(ns, ms) || (ns == ms && Less(a, b))
  {
    if ns != [] {
      var p, q := Pad(ns[0], ws[0]), Pad(ms[0], ws[0]);
      var x, y := Render(ns[1..], ws[1..], seps[1..], a), Render(ms[1..], ws[1..], seps[1..], b);
      RenderOrder(ns[1..], ms[1..], ws[1..], seps[1..], a, b);
      PadOrder(ns[0], ms[0], ws[0]);
      Regroup(p, seps[0], x);
      Regroup(q, seps[0], y);
      assert ns == [ns[0]] + ns[1..] && ms == [ms[0]] + ms[1..];
      if p == q {
        LessSamePrefix(p, seps[0] + x, seps[0] + y);
        LessSamePrefix(seps[0], x, y);
      } else {
        LessDecided(p, q, seps[0] + x, seps[0] + y);
      }
    }
  }

  lemma SuffixOrder(m: nat, n: nat)
    requires m < 1000000 && n < 1000000
    ensures Less(Suffix(m), Suffix(n)) <==> (if m == 0 || n == 0 then m != 0 && n == 0 else m < n)
  {
    if m != 0 && n != 0 {
      assert Pow10(6) == 1000000;
      PadOrder(m, n, 6);
      LessSamePrefix(".", Pad(m, 6) + "Z", Pad(n, 6) + "Z");
      assert Suffix(m) == "." + (Pad(m, 6) + "Z") && Suffix(n) == "." + (Pad(n, 6) + "Z");
      if m == n {
        LessSamePrefix(Pad(m, 6) + "Z", "", "");
        assert Pad(m, 6) + "Z" + "" == Pad(m, 6) + "Z";
      } else {
        LessDecided(Pad(m, 6), Pad(n, 6), "Z", "Z");
      }
    }
  }

  // ---- calendar order ----

  lemma DayOrder(t: Instant, u: Instant)
    requires ValidInstant(t) && ValidInstant(u)
    ensures DayNumber(t) < DayNumber(u) <==> Lex([t.year, t.month, t.day], [u.year, u.month, u.day])
    ensures DayNumber(t) == DayNumber(u) <==> t.year == u.year && t.month == u.month && t.day == u.day
  {
    DayInYear(t);
    DayInYear(u);
    if t.year < u.year { YearsGrow(t.year, u.year); }
    if u.year < t.year { YearsGrow(u.year, t.year); }
    if t.month < u.month { MonthsGrow(t.year, t.month, u.month); }
    if u.month < t.month { MonthsGrow(u.year, u.month, t.month); }
    var ns, ms := [t.year, t.month, t.day], [u.year, u.month, u.day];
    assert ns[1..] == [t.month, t.day] && ms[1..] == [u.month, u.day] && ns[2..] == [t.day] && ms[2..] == [u.day];
    assert ns[1..][1..] == [t.day] && ms[1..][1..] == [u.day];
    assert Lex([t.day], [u.day]) <==> t.day < u.day;
  }

  lemma {:induction false} LexSplit(ns: seq<nat>, ms: seq<nat>, ns': seq<nat>, ms': seq<nat>)
    requires |ns| == |ms| && |ns'| == |ms'|
    ensures Lex(ns + ns', ms + ms') <==> Lex(ns, ms) || (ns == ms && Lex(ns', ms'))
  {
    if ns == [] {
      assert ns + ns' == ns' && ms + ms' == ms';
    } else {
      LexSplit(ns[1..], ms[1..], ns', ms');
      assert (ns + ns')[1..] == ns[1..] + ns' && (ms + ms')[1..] == ms[1..] + ms';
      assert ns == [ns[0]] + ns[1..] && ms == [ms[0]] + ms[1..];
    }
  }

  lemma LexTime(t: Instant, u: Instant)
    ensures Lex([t.hour, t.minute, t.second], [u.hour, u.minute, u.second]) <==>
      t.hour < u.hour || (t.hour == u.hour && (t.minute < u.minute || (t.minute == u.minute && t.second < u.second)))
  {
    var ns, ms := [t.hour, t.minute, t.second], [u.hour, u.minute, u.second];
    assert ns[1..] == [t.minute, t.second] && ms[1..] == [u.minute, u.second];
    assert ns[1..][1..] == [t.second] && ms[1..][1..] == [u.second];
    assert Lex([t.second], [u.second]) <==> t.second < u.second;
  }

  /** The seconds count orders instants as their fields do, most significant first. */
  lemma SecondsOrder(t: Instant, u: Instant)
    requires ValidInstant(t) && ValidInstant(u)
    ensures Seconds(t) < Seconds(u) <==> Lex(Fields(t), Fields(u))
    ensures Seconds(t) == Seconds(u) <==> Fields(t) == Fields(u)
  {
    DayOrder(t, u);
    LexTime(t, u);
    LexSplit([t.year, t.month, t.day], [u.year, u.month, u.day],
             [t.hour, t.minute, t.second], [u.hour, u.minute, u.second]);
    assert Fields(t) == [t.year, t.month, t.day] + [t.hour, t.minute, t.second];
    assert Fields(u) == [u.year, u.month, u.day] + [u.hour, u.minute, u.second];
    assert Fields(t) == Fields(u) <==>
      && t.year == u.year && t.month == u.month && t.day == u.day
      && t.hour == u.hour && t.minute == u.minute && t.second == u.second;
  }

  /** String order is time order, except between two instants of the same second of which exactly one has no
      fraction: there the whole second sorts last although it comes first. */
  lemma StringOrderExact(t: Instant, u: Instant)
    requires ValidInstant(t) && ValidInstant(u)
    ensures Less(Normalize(t), Normalize(u)) <==>
      if Seconds(t) == Seconds(u) && (t.micro == 0) != (u.micro == 0) then u.micro == 0 else Micros(t) < Micros(u)
  {
    SecondsOrder(t, u);
    assert Pow10(4) == 10000 && Pow10(2) == 100;
    RenderOrder(Fields(t), Fields(u), WIDTHS, SEPARATORS, Suffix(t.micro), Suffix(u.micro));
    SuffixOrder(t.micro, u.micro);
  }

  // ---- parsing back ----

  function Value(s: string): nat {
    if s == "" then 0
    else 10 * Value(s[..|s| - 1]) + (if '0' <= s[|s| - 1] <= '9' then (s[|s| - 1] - '0') as nat else 0)
  }

  lemma {:induction false} ValueOfPad(n: nat, w: nat)
    requires n < Pow10(w)
    ensures Value(Pad(n, w)) == n
  {
    if w > 0 {
      ValueOfPad(n / 10, w - 1);
      assert Pad(n, w)[..w - 1] == Pad(n / 10, w - 1);
    }
  }

  /** fromisoformat on the two shapes normalize_timestamp produces. */
  function Parse(s: string): (r: Option<Instant>)
    ensures r.Some? ==> ValidInstant(r.value) && s == Normalize(r.value)
  {
    if (|s| != 20 && |s| != 27) || s[|s| - 1] != 'Z' then None
    else
      var t := Instant(Value(s[0..4]), Value(s[5..7]), Value(s[8..10]),
                       Value(s[11..13]), Value(s[14..16]), Value(s[17..19]),
                       if |s| == 20 then 0 else Value(s[20..26]));
      if ValidInstant(t) && Normalize(t) == s then Some(t) else None
  }

  lemma Shape(t: Instant)
    ensures Normalize(t) ==
      Pad(t.year, 4) + ("-" + (Pad(t.month, 2) + ("-" + (Pad(t.day, 2) + ("T" + (Pad(t.hour, 2) + (":" + (
      Pad(t.minute, 2) + (":" + (Pad(t.second, 2) + Suffix(t.micro)))))))))))
  {
    var ns := Fields(t);
    RenderStep(ns, WIDTHS, SEPARATORS, Suffix(t.micro));
    RenderStep(ns[1..], WIDTHS[1..], SEPARATORS[1..], Suffix(t.micro));
    RenderStep(ns[2..], WIDTHS[2..], SEPARATORS[2..], Suffix(t.micro));
    RenderStep(ns[3..], WIDTHS[3..], SEPARATORS[3..], Suffix(t.micro));
    RenderStep(ns[4..], WIDTHS[4..], SEPARATORS[4..], Suffix(t.micro));
    RenderStep(ns[5..], WIDTHS[5..], SEPARATORS[5..], Suffix(t.micro));
    assert Pad(t.second, 2) + ("" + Suffix(t.micro)) == Pad(t.second, 2) + Suffix(t.micro);
  }

  lemma RenderStep(ns: seq<nat>, ws: seq<nat>, seps: seq<string>, tail: string)
    requires |ns| == |ws| == |seps|
    ensures
      if ns == [] then Render(ns, ws, seps, tail) == tail
      else Render(ns, ws, seps, tail) == Pad(ns[0], ws[0]) + (seps[0] + Render(ns[1..], ws[1..], seps[1..], tail))
  {
  }

  /** Where the pieces of a concatenation end up. */
  lemma Peel(s: string, k: nat, p: string, c: string, rest: string)
    requires k <= |s| && s[k..] == p + (c + rest)
    ensures k + |p| + |c| <= |s| && s[k..k + |p|] == p && s[k + |p| + |c|..] == rest
  {
    assert s[k..][..|p|] == p && s[k..][|p| + |c|..] == rest;
  }

  lemma PrefixSlices(s: string, y: string, mo: string, d: string, h: string, mi: string, sec: string, f: string)
    requires |y| == 4 && |mo| == |d| == |h| == |mi| == |sec| == 2
    requires s == y + ("-" + (mo + ("-" + (d + ("T" + (h + (":" + (mi + (":" + (sec + f))))))))))
    ensures |s| >= 19 && s[0..4] == y && s[5..7] == mo && s[8..10] == d
    ensures s[11..13] == h && s[14..16] == mi && s[17..19] == sec && s[19..] == f
  {
    var r5 := sec + f;
    var r4 := mi + (":" + r5);
    var r3 := h + (":" + r4);
    var r2 := d + ("T" + r3);
    var r1 := mo + ("-" + r2);
    assert s[0..] == s;
    Peel(s, 0, y, "-", r1);
    Peel(s, 5, mo, "-", r2);
    Peel(s, 8, d, "T", r3);
    Peel(s, 11, h, ":", r4);
    Peel(s, 14, mi, ":", r5);
    assert s[17..] == sec + ("" + f);
    Peel(s, 17, sec, "", f);
  }

  /** Parsing inverts normalizing, for every instant a datetime can hold. */
  lemma ParseInvertsNormalize(t: Instant)
    requires ValidInstant(t)
    ensures Parse(Normalize(t)) == Some(t)
  {
    Shape(t);
    PrefixSlices(Normalize(t), Pad(t.year, 4), Pad(t.month, 2), Pad(t.day, 2),
                 Pad(t.hour, 2), Pad(t.minute, 2), Pad(t.second, 2), Suffix(t.micro));
    FractionParses(Normalize(t), t.micro);
    ValuesOfFields(t);
  }

  lemma FractionParses(s: string, micro: nat)
    requires |s| >= 19 && s[19..] == Suffix(micro) && micro < 1000000
    ensures (|s| == 20 || |s| == 27) && s[|s| - 1] == 'Z' && micro == if |s| == 20 then 0 else Value(s[20..26])
  {
    assert |s| == 19 + |Suffix(micro)| && s[|s| - 1] == s[19..][|s| - 20];
    if micro != 0 {
      assert s[20..26] == s[19..][1..7] == Pad(micro, 6);
      assert Pow10(6) == 1000000;
      ValueOfPad(micro, 6);
    }
  }

  lemma ValuesOfFields(t: Instant)
    requires ValidInstant(t)
    ensures Value(Pad(t.year, 4)) == t.year && Value(Pad(t.month, 2)) == t.month && Value(Pad(t.day, 2)) == t.day
    ensures Value(Pad(t.hour, 2)) == t.hour && Value(Pad(t.minute, 2)) == t.minute
    ensures Value(Pad(t.second, 2)) == t.second
  {
    assert Pow10(4) == 10000 && Pow10(2) == 100;
    ValueOfPad(t.year, 4);
    ValueOfPad(t.month, 2);
    ValueOfPad(t.day, 2);
    ValueOfPad(t.hour, 2);
    ValueOfPad(t.minute, 2);
    ValueOfPad(t.second, 2);
  }

  // ---- the timeline ----

  datatype Event = Event(timestamp: string, component: string, name: string)

  /** The sort key of main: timestamp or "9999", then component, then event name. */
  predicate KeyLess(a: Event, b: Event) {
    var x := if a.timestamp == "" then "9999" else a.timestamp;
    var y := if b.timestamp == "" then "9999" else b.timestamp;
    Less(x, y) || (x == y && (Less(a.component, b.component) || (a.component == b.component && Less(a.name, b.name))))
  }

  ghost predicate Sorted(events: seq<Event>) {
    forall i, j :: 0 <= i < j < |events| ==> !KeyLess(events[j], events[i])
  }

  /** Events of one instant are ordered by component, then name; otherwise an earlier second comes first. */
  lemma KeyOrder(a: Event, b: Event, t: Instant, u: Instant)
    requires ValidInstant(t) && ValidInstant(u) && a.timestamp == Normalize(t) && b.timestamp == Normalize(u)
    ensures t == u ==>
      (KeyLess(a, b) <==>
         Less(a.component, b.component) || (a.component == b.component && Less(a.name, b.name)))
    ensures Seconds(t) < Seconds(u) ==> KeyLess(a, b) && !KeyLess(b, a)
  {
    StringOrderExact(t, u);
    StringOrderExact(u, t);
    assert a.timestamp != "" && b.timestamp != "" by {
      Shape(t);
      Shape(u);
    }
  }

  /** An event without a timestamp comes after every event of a year before 9999. */
  lemma UntimedSortLast(a: Event, b: Event, t: Instant)
    requires ValidInstant(t) && t.year < 9999 && a.timestamp == Normalize(t) && b.timestamp == ""
    ensures KeyLess(a, b) && !KeyLess(b, a)
  {
    Shape(t);
    var year, last, rest := Pad(t.year, 4), Pad(9999, 4), Normalize(t)[4..];
    assert Normalize(t) == year + rest;
    assert last == "9999" by {
      assert Pad(9, 1) == "9" && Pad(99, 2) == "99" && Pad(999, 3) == "999";
    }
    assert Pow10(4) == 10000;
    PadOrder(t.year, 9999, 4);
    PadOrder(9999, t.year, 4);
    LessDecided(year, last, rest, "");
    LessDecided(last, year, "", rest);
    assert last + "" == "9999";
  }

  function Stamp(e: Event): Option<Instant> {
    if e.timestamp == "" then None else Parse(e.timestamp)
  }

  function FirstTimestamp(events: seq<Event>, names: set<string>): (r: Option<Instant>)
    ensures r.Some? ==> ValidInstant(r.value)
  {
    if events == [] then None
    else if events[0].name in names && Stamp(events[0]).Some? then Stamp(events[0])
    else FirstTimestamp(events[1..], names)
  }

  /** duration_ms, in microseconds: reported exactly when both groups have a usable timestamp and the first of the end
      is not before the first of the start, and then it is the time between the two. */
  function Duration(events: seq<Event>, starts: set<string>, ends: set<string>): (r: Option<int>)
    ensures
      var start, end := FirstTimestamp(events, starts), FirstTimestamp(events, ends);
      r.Some? <==> start.Some? && end.Some? && Micros(start.value) <= Micros(end.value)
    ensures r.Some? ==>
      && r.value >= 0
      && Micros(FirstTimestamp(events, starts).value) + r.value == Micros(FirstTimestamp(events, ends).value)
  {
    var start, end := FirstTimestamp(events, starts), FirstTimestamp(events, ends);
    if start == None || end == None then None
    else if Micros(end.value) < Micros(start.value) then None
    else Some(Micros(end.value) - Micros(start.value))
  }

  /** An event of the group with a usable timestamp. */
  ghost predicate Timed(e: Event, names: set<string>, t: Instant) {
    e.name in names && Stamp(e) == Some(t)
  }

  /** Event i is the first of its group with a usable timestamp, and that timestamp is t. */
  ghost predicate FirstAt(events: seq<Event>, names: set<string>, i: nat, t: Instant) {
    && i < |events| && Timed(events[i], names, t)
    && forall k, u :: 0 <= k < i ==> !Timed(events[k], names, u)
  }

  lemma {:induction false} FirstMeans(events: seq<Event>, names: set<string>) returns (i: nat)
    ensures
      match FirstTimestamp(events, names)
      case None => forall e, t :: e in events ==> !Timed(e, names, t)
      case Some(t) => FirstAt(events, names, i, t)
  {
    i := 0;
    if events != [] && !(events[0].name in names && Stamp(events[0]).Some?) {
      var rest := events[1..];
      i := FirstMeans(rest, names);
      if FirstTimestamp(events, names) == None {
        forall e, t | e in events ensures !Timed(e, names, t) {
          if e != events[0] { assert e in rest; }
        }
      } else {
        forall k, u | 0 <= k < i + 1 ensures !Timed(events[k], names, u) {
          if k > 0 { assert events[k] == rest[k - 1]; }
        }
        i := i + 1;
      }
    }
  }

  /** The earliest usable timestamp of a group, by the clock. */
  ghost predicate Earliest(events: seq<Event>, names: set<string>, t: Instant) {
    && ValidInstant(t) && (exists e :: e in events && Timed(e, names, t))
    && forall e, u :: e in events && Timed(e, names, u) ==> Micros(t) <= Micros(u)
  }

  /** After main's sort the first timestamp found is less than one second after the earliest event by the clock,
      and one is found whenever there is one. */
  lemma FirstIsNearlyEarliest(events: seq<Event>, sorted: seq<Event>, names: set<string>, u: Instant)
    requires Sorted(sorted) && multiset(sorted) == multiset(events)
    requires Earliest(events, names, u)
    ensures
      var r := FirstTimestamp(sorted, names);
      r.Some? && Micros(u) <= Micros(r.value) < Micros(u) + 1000000
  {
    var i := FirstMeans(sorted, names);
    var e :| e in events && Timed(e, names, u);
    assert e in multiset(events);
    var j :| 0 <= j < |sorted| && sorted[j] == e;
    var t := FirstTimestamp(sorted, names).value;
    assert sorted[i] in multiset(sorted);
    assert i <= j;
    if i < j {
      assert !Less(e.timestamp, sorted[i].timestamp);
      StringOrderExact(u, t);
    }
  }

  /** A reported duration is off by less than a second from the duration between the earliest events; and no
      duration is reported only when the end precedes the start, or follows it by less than a second. */
  lemma DurationErrorBound(events: seq<Event>, sorted: seq<Event>, starts: set<string>, ends: set<string>,
      u: Instant, v: Instant)
    requires Sorted(sorted) && multiset(sorted) == multiset(events)
    requires Earliest(events, starts, u) && Earliest(events, ends, v)
    ensures
      match Duration(sorted, starts, ends)
      case Some(d) => -1000000 < d - (Micros(v) - Micros(u)) < 1000000
      case None => Micros(v) - Micros(u) < 1000000
  {
    FirstIsNearlyEarliest(events, sorted, starts, u);
    FirstIsNearlyEarliest(events, sorted, ends, v);
  }

  /** The error is real: of two events half a second apart in the same second, the sort puts the later first. */
  lemma WholeSecondsSortLate(t: Instant)
    requires ValidInstant(t) && t.micro == 0
    ensures
      var half := t.(micro := 500000);
      var a, b := Event(Normalize(t), "AMF", "authentication"), Event(Normalize(half), "AMF", "authentication");
      && Micros(t) < Micros(half) && !Sorted([a, b]) && Sorted([b, a])
      && FirstTimestamp([b, a], {"authentication"}) == Some(half)
  {
    var half := t.(micro := 500000);
    StringOrderExact(t, half);
    StringOrderExact(half, t);
    ParseInvertsNormalize(half);
    var a, b := Event(Normalize(t), "AMF", "authentication"), Event(Normalize(half), "AMF", "authentication");
    assert KeyLess(b, a) && !KeyLess(a, b);
    assert [a, b][0] == a && [a, b][1] == b;
  }
}
