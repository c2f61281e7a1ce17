/** `datetime.strptime(text, "%Y-%m-%d %I:%M %p")`, restricted to ASCII
    digits. The pattern is read the way Python's `_strptime` compiles it:
    `%Y` is exactly four digits; `%m`, `%d`, `%I` and `%M` are one or two
    digits within their ranges; each blank in the format matches one or more
    whitespace characters; `%p` is `AM` or `PM` in any letter case; nothing
    may follow. The text must then name a real `datetime`. */
module Strptime {
  import opened Wrappers
  import opened Text
  import opened Decimal
  import opened Civil

  datatype Meridiem = AM | PM

  /** The raw pieces of a text the pattern matches, in order. */
  datatype Fields = Fields(
    year: string, month: string, day: string, beforeHour: string,
    hour: string, minute: string, beforeMarker: string, marker: string)

  /** `%p` in the C locale, compared case-insensitively. */
  function MeridiemOf(s: string): Option<Meridiem> {
    if |s| == 2 && (s[1] == 'M' || s[1] == 'm') then
      if s[0] == 'A' || s[0] == 'a' then Some(AM)
      else if s[0] == 'P' || s[0] == 'p' then Some(PM)
      else None
    else None
  }

  predicate ShortNumber(s: string) {
    1 <= |s| <= 2 && AllDigits(s)
  }

  predicate Gap(s: string) {
    |s| >= 1 && AllSpace(s)
  }

  /** The shape of text the pattern matches, before any range check. */
  predicate WellFormed(f: Fields) {
    && |f.year| == 4 && AllDigits(f.year)
    && ShortNumber(f.month) && ShortNumber(f.day)
    && Gap(f.beforeHour)
    && ShortNumber(f.hour) && ShortNumber(f.minute)
    && Gap(f.beforeMarker)
    && MeridiemOf(f.marker).Some?
  }

  /** The text made of the pieces. */
  function Unlex(f: Fields): string {
    f.year + ("-" + (f.month + ("-" + (f.day + (f.beforeHour
      + (f.hour + (":" + (f.minute + (f.beforeMarker + f.marker)))))))))
  }

  /** A run of between `lo` and `hi` digits, and what follows it. */
  function Digits(s: string, lo: nat, hi: nat): (r: Option<(string, string)>)
    ensures r.Some? ==> r.value.0 + r.value.1 == s && AllDigits(r.value.0)
                        && lo <= |r.value.0| <= hi
  {
    var n := DigitRun(s);
    assert s[..n] + s[n..] == s;
    if lo <= n <= hi then Some((s[..n], s[n..])) else None
  }

  /** A non-empty run of whitespace, and what follows it. */
  function Blank(s: string): (r: Option<(string, string)>)
    ensures r.Some? ==> r.value.0 + r.value.1 == s && Gap(r.value.0)
  {
    var n := LeadingSpaces(s);
    assert s[..n] + s[n..] == s;
    if n >= 1 then Some((s[..n], s[n..])) else None
  }

  function Literal(s: string, c: char): (r: Option<string>)
    ensures r.Some? ==> [c] + r.value == s
  {
    if s != [] && s[0] == c then Some(s[1..]) else None
  }

  /** The date half of the pattern: `%Y-%m-%d`, and what follows it. */
  function LexDate(s: string): (r: Option<(string, string, string, string)>)
    ensures r.Some? ==> var (y, mo, d, rest) := r.value;
                        && |y| == 4 && AllDigits(y) && ShortNumber(mo) && ShortNumber(d)
                        && s == y + ("-" + (mo + ("-" + (d + rest))))
  {
    var y :- Digits(s, 4, 4);
    var s1 :- Literal(y.1, '-');
    var mo :- Digits(s1, 1, 2);
    var s2 :- Literal(mo.1, '-');
    var d :- Digits(s2, 1, 2);
    Some((y.0, mo.0, d.0, d.1))
  }

  /** The hour of the pattern: `\s+%I:`, and what follows it. */
  function LexHour(s: string): (r: Option<(string, string, string)>)
    ensures r.Some? ==> var (g1, h, rest) := r.value;
                        && Gap(g1) && ShortNumber(h)
                        && s == g1 + (h + (":" + rest))
  {
    var g1 :- Blank(s);
    var h :- Digits(g1.1, 1, 2);
    var rest :- Literal(h.1, ':');
    Some((g1.0, h.0, rest))
  }

  /** The end of the pattern: `%M\s+%p` and nothing after it. */
  function LexMinute(s: string): (r: Option<(string, string, string)>)
    ensures r.Some? ==> var (mi, g2, p) := r.value;
                        && ShortNumber(mi) && Gap(g2) && MeridiemOf(p).Some?
                        && s == mi + (g2 + p)
  {
    var mi :- Digits(s, 1, 2);
    var g2 :- Blank(mi.1);
    var _ :- MeridiemOf(g2.1);
    Some((mi.0, g2.0, g2.1))
  }

  /** Match the pattern against `s`, splitting it into its pieces. */
  function Lex(s: string): (r: Option<Fields>)
    ensures r.Some? ==> WellFormed(r.value) && Unlex(r.value) == s
  {
    var (y, mo, d, s1) :- LexDate(s);
    var (g1, h, s2) :- LexHour(s1);
    var (mi, g2, p) :- LexMinute(s2);
    Some(Fields(y, mo, d, g1, h, mi, g2, p))
  }

  lemma DigitsOf(d: string, t: string, lo: nat, hi: nat)
    requires AllDigits(d) && lo <= |d| <= hi
    requires t == [] || !IsDigit(t[0])
    ensures Digits(d + t, lo, hi) == Some((d, t))
  {
    DigitRunOf(d, t);
    assert (d + t)[..|d|] == d && (d + t)[|d|..] == t;
  }

  lemma BlankOf(g: string, t: string)
    requires Gap(g)
    requires t == [] || !IsSpace(t[0])
    ensures Blank(g + t) == Some((g, t))
  {
    LeadingSpacesOf(g, t);
    assert (g + t)[..|g|] == g && (g + t)[|g|..] == t;
  }

  lemma LiteralOf(c: char, t: string)
    ensures Literal([c] + t, c) == Some(t)
  {
    assert ([c] + t)[1..] == t;
  }

  lemma LexDateOf(y: string, mo: string, d: string, rest: string)
    requires |y| == 4 && AllDigits(y) && ShortNumber(mo) && ShortNumber(d)
    requires rest == [] || !IsDigit(rest[0])
    ensures LexDate(y + ("-" + (mo + ("-" + (d + rest))))) == Some((y, mo, d, rest))
  {
    var t2 := "-" + (d + rest);
    var t0 := "-" + (mo + t2);
    DigitsOf(y, t0, 4, 4);
    LiteralOf('-', mo + t2);
    DigitsOf(mo, t2, 1, 2);
    LiteralOf('-', d + rest);
    DigitsOf(d, rest, 1, 2);
  }

  lemma LexHourOf(g1: string, h: string, rest: string)
    requires Gap(g1) && ShortNumber(h)
    ensures LexHour(g1 + (h + (":" + rest))) == Some((g1, h, rest))
  {
    assert (h + (":" + rest))[0] == h[0] && IsDigit(h[0]);
    BlankOf(g1, h + (":" + rest));
    DigitsOf(h, ":" + rest, 1, 2);
    LiteralOf(':', rest);
  }

  lemma LexMinuteOf(mi: string, g2: string, p: string)
    requires ShortNumber(mi) && Gap(g2) && MeridiemOf(p).Some?
    ensures LexMinute(mi + (g2 + p)) == Some((mi, g2, p))
  {
    assert p[0] == 'A' || p[0] == 'a' || p[0] == 'P' || p[0] == 'p';
    assert (g2 + p)[0] == g2[0] && IsSpace(g2[0]);
    DigitsOf(mi, g2 + p, 1, 2);
    BlankOf(g2, p);
  }

  /** Every text of the right shape is matched, and split back into exactly
      the pieces it was made of. */
  lemma LexUnlex(f: Fields)
    requires WellFormed(f)
    ensures Lex(Unlex(f)) == Some(f)
  {
    var tail := f.minute + (f.beforeMarker + f.marker);
    var clock := f.beforeHour + (f.hour + (":" + tail));
    LexDateOf(f.year, f.month, f.day, clock);
    LexHourOf(f.beforeHour, f.hour, tail);
    LexMinuteOf(f.minute, f.beforeMarker, f.marker);
  }

  /** The 12-hour clock read the way `_strptime` does: 12 AM is hour 0,
      12 PM is hour 12, and 1 to 11 PM are 13 to 23. */
  function Hour24(h: int, m: Meridiem): (r: int)
    requires 1 <= h <= 12
    ensures 0 <= r < 24
    ensures r < 12 <==> m == AM
    ensures r % 12 == h % 12
  {
    match m
    case AM => if h == 12 then 0 else h
    case PM => if h == 12 then 12 else h + 12
  }

  /** The 24-hour clock written on a 12-hour dial, as `%I` and `%p` print it. */
  function To12(h: int): (r: (int, Meridiem))
    requires 0 <= h < 24
    ensures 1 <= r.0 <= 12
    ensures Hour24(r.0, r.1) == h
  {
    (if h % 12 == 0 then 12 else h % 12, if h < 12 then AM else PM)
  }

  /** The 12-hour reading is one-to-one: every hour of the day has exactly
      one 12-hour name. */
  lemma Hour24Injective(h: int, m: Meridiem, h': int, m': Meridiem)
    requires 1 <= h <= 12 && 1 <= h' <= 12
    requires Hour24(h, m) == Hour24(h', m')
    ensures h == h' && m == m'
  {
  }

  /** The checks made once the pattern has matched: the ranges the pattern's
      alternatives admit, then `datetime`'s own check of the date. */
  predicate InRange(f: Fields)
    requires WellFormed(f)
  {
    var y, mo, d := ValueOf(f.year), ValueOf(f.month), ValueOf(f.day);
    && 1 <= mo <= 12
    && 1 <= d <= 31
    && 1 <= ValueOf(f.hour) <= 12
    && ValueOf(f.minute) <= 59
    && ValidDate(Date(y, mo, d))
  }

  function Interpret(f: Fields): (r: Option<DateTime>)
    requires WellFormed(f)
    ensures r.Some? <==> InRange(f)
    ensures r.Some? ==> && Valid(r.value)
                        && r.value.date == Date(ValueOf(f.year), ValueOf(f.month), ValueOf(f.day))
                        && (r.value.hour < 12 <==> MeridiemOf(f.marker) == Some(AM))
                        && r.value.hour % 12 == ValueOf(f.hour) % 12
                        && r.value.minute == ValueOf(f.minute)
                        && r.value.second == 0
  {
    if InRange(f) then
      var date := Date(ValueOf(f.year), ValueOf(f.month), ValueOf(f.day));
      Some(DateTime(date, Hour24(ValueOf(f.hour), MeridiemOf(f.marker).value), ValueOf(f.minute), 0))
    else
      None
  }

  /** `datetime.strptime(s, "%Y-%m-%d %I:%M %p")`; `None` is its
      `ValueError`. */
  function Parse12(s: string): (r: Option<DateTime>)
    ensures r.Some? <==> Lex(s).Some? && InRange(Lex(s).value)
    ensures r.Some? ==> && Valid(r.value) && r.value.second == 0
                        && var f := Lex(s).value;
                        && r.value.date == Date(ValueOf(f.year), ValueOf(f.month), ValueOf(f.day))
                        && (r.value.hour < 12 <==> MeridiemOf(f.marker) == Some(AM))
                        && r.value.hour % 12 == ValueOf(f.hour) % 12
                        && r.value.minute == ValueOf(f.minute)
  {
    var f :- Lex(s);
    Interpret(f)
  }

  /** The pieces `strftime("%Y-%m-%d %I:%M %p")` would print for `t`. */
  function Fields12(t: DateTime): (f: Fields)
    requires Valid(t)
    ensures WellFormed(f)
  {
    var (h, m) := To12(t.hour);
    Fields(Pad(t.date.year, 4), Pad(t.date.month, 2), Pad(t.date.day, 2), " ",
           Pad(h, 2), Pad(t.minute, 2), " ", if m == AM then "AM" else "PM")
  }

  function Format12(t: DateTime): string
    requires Valid(t)
  {
    Unlex(Fields12(t))
  }

  /** Parsing what the same pattern prints gives the date-time back. */
  lemma ParseFormat12(t: DateTime)
    requires Valid(t) && t.second == 0
    ensures Parse12(Format12(t)) == Some(t)
  {
    var f := Fields12(t);
    LexUnlex(f);
    assert Pow10(2) == 100 && Pow10(4) == 10000 by {
      assert Pow10(1) == 10 && Pow10(3) == 1000;
    }
    var (h, m) := To12(t.hour);
    assert MeridiemOf(f.marker) == Some(m);
    assert ValueOf(f.hour) == h;
  }

  /** The whole of what the pattern does to a text of the right shape: it
      succeeds exactly when the numbers are in range and name a real date. */
  lemma ParseShaped(f: Fields)
    requires WellFormed(f)
    ensures Parse12(Unlex(f)) == Interpret(f)
    ensures Parse12(Unlex(f)).Some? <==> InRange(f)
  {
    LexUnlex(f);
  }

  /** 12 AM is midnight and 12 PM is noon. */
  lemma TwelveOClock(m: Meridiem)
    ensures Hour24(12, m) == (if m == AM then 0 else 12)
  {
  }

  lemma ParseVia(s: string, f: Fields)
    requires Lex(s) == Some(f)
    ensures Parse12(s) == Interpret(f)
  {
  }

  lemma SmallValues()
    ensures ValueOf("2025") == 2025 && ValueOf("2024") == 2024
    ensures ValueOf("02") == 2 && ValueOf("03") == 3 && ValueOf("10") == 10
    ensures ValueOf("29") == 29 && ValueOf("30") == 30
  {
    assert "2025"[..3] == "202" && "202"[..2] == "20" && "20"[..1] == "2";
    assert "2024"[..3] == "202";
    assert "02"[..1] == "0" && "03"[..1] == "0" && "10"[..1] == "1";
    assert "29"[..1] == "2" && "30"[..1] == "3";
  }

  lemma AfternoonPieces()
    ensures Lex("2025-03-10 02:30 PM") == Some(Fields("2025", "03", "10", " ", "02", "30", " ", "PM"))
  {
    var f := Fields("2025", "03", "10", " ", "02", "30", " ", "PM");
    assert Unlex(f) == "2025-03-10 02:30 PM";
    LexUnlex(f);
  }

  lemma AfternoonValue()
    ensures Interpret(Fields("2025", "03", "10", " ", "02", "30", " ", "PM"))
            == Some(DateTime(Date(2025, 3, 10), 14, 30, 0))
  {
    var f := Fields("2025", "03", "10", " ", "02", "30", " ", "PM");
    AfternoonInRange();
    assert MeridiemOf(f.marker) == Some(PM);
    assert Interpret(f) == Some(DateTime(Date(2025, 3, 10), Hour24(2, PM), 30, 0));
  }

  lemma AfternoonInRange()
    ensures WellFormed(Fields("2025", "03", "10", " ", "02", "30", " ", "PM"))
    ensures InRange(Fields("2025", "03", "10", " ", "02", "30", " ", "PM"))
    ensures ValueOf("2025") == 2025 && ValueOf("03") == 3 && ValueOf("10") == 10
    ensures ValueOf("02") == 2 && ValueOf("30") == 30
  {
    SmallValues();
    assert ValidDate(Date(2025, 3, 10));
  }

  /** 2:30 in the afternoon is hour 14. */
  lemma AfternoonExample()
    ensures Parse12("2025-03-10 02:30 PM") == Some(DateTime(Date(2025, 3, 10), 14, 30, 0))
  {
    AfternoonPieces();
    AfternoonValue();
    ParseVia("2025-03-10 02:30 PM", Fields("2025", "03", "10", " ", "02", "30", " ", "PM"));
  }

  lemma LeapYearPieces()
    ensures Lex("2024-02-29 10:30 AM") == Some(Fields("2024", "02", "29", " ", "10", "30", " ", "AM"))
  {
    var f := Fields("2024", "02", "29", " ", "10", "30", " ", "AM");
    assert Unlex(f) == "2024-02-29 10:30 AM";
    LexUnlex(f);
  }

  lemma CommonYearPieces()
    ensures Lex("2025-02-29 10:30 AM") == Some(Fields("2025", "02", "29", " ", "10", "30", " ", "AM"))
  {
    var f := Fields("2025", "02", "29", " ", "10", "30", " ", "AM");
    assert Unlex(f) == "2025-02-29 10:30 AM";
    LexUnlex(f);
  }

  lemma LeapDayValues()
    ensures Interpret(Fields("2024", "02", "29", " ", "10", "30", " ", "AM")).Some?
    ensures Interpret(Fields("2025", "02", "29", " ", "10", "30", " ", "AM")).None?
  {
    SmallValues();
    assert InRange(Fields("2024", "02", "29", " ", "10", "30", " ", "AM"));
    assert !InRange(Fields("2025", "02", "29", " ", "10", "30", " ", "AM"));
  }

  /** February 29 exists in 2024 but not in 2025. */
  lemma LeapDayExample()
    ensures Parse12("2024-02-29 10:30 AM").Some?
    ensures Parse12("2025-02-29 10:30 AM").None?
  {
    LeapYearPieces();
    CommonYearPieces();
    LeapDayValues();
    ParseVia("2024-02-29 10:30 AM", Fields("2024", "02", "29", " ", "10", "30", " ", "AM"));
    ParseVia("2025-02-29 10:30 AM", Fields("2025", "02", "29", " ", "10", "30", " ", "AM"));
  }
}
