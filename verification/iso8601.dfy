/** `datetime.isoformat()` for the naive, whole-second date-times the
    booking handler produces: the extended complete calendar representation
    `YYYY-MM-DDThh:mm:ss` of section 4.3.2 of ISO 8601:2004, with no zone
    designator. `ParseIso` reads that representation back. */
module Iso8601 {
  import opened Wrappers
  import opened Decimal
  import opened Civil

  /** `YYYY-MM-DD` */
  function DatePart(d: Date): (s: string)
    requires ValidDate(d)
    ensures |s| == 10
  {
    Pad(d.year, 4) + "-" + Pad(d.month, 2) + "-" + Pad(d.day, 2)
  }

  /** `hh:mm:ss` */
  function TimePart(t: DateTime): (s: string)
    requires Valid(t)
    ensures |s| == 8
  {
    Pad(t.hour, 2) + ":" + Pad(t.minute, 2) + ":" + Pad(t.second, 2)
  }

  function IsoFormat(t: DateTime): (s: string)
    requires Valid(t)
    ensures |s| == 19 && s[10] == 'T'
  {
    DatePart(t.date) + "T" + TimePart(t)
  }

  /** The digits of `s` from `lo` up to `hi`, read as a number. */
  function NumberAt(s: string, lo: nat, hi: nat): Option<int>
    requires lo <= hi <= |s|
  {
    if AllDigits(s[lo..hi]) then Some(ValueOf(s[lo..hi])) else None
  }

  /** Read `YYYY-MM-DD` back. */
  function ParseDatePart(s: string): Option<Date>
    requires |s| == 10
  {
    if s[4] == '-' && s[7] == '-' then
      var year :- NumberAt(s, 0, 4);
      var month :- NumberAt(s, 5, 7);
      var day :- NumberAt(s, 8, 10);
      Some(Date(year, month, day))
    else
      None
  }

  /** Read `hh:mm:ss` back as hour, minute and second. */
  function ParseTimePart(s: string): Option<(int, int, int)>
    requires |s| == 8
  {
    if s[2] == ':' && s[5] == ':' then
      var hour :- NumberAt(s, 0, 2);
      var minute :- NumberAt(s, 3, 5);
      var second :- NumberAt(s, 6, 8);
      Some((hour, minute, second))
    else
      None
  }

  /** Read `YYYY-MM-DDThh:mm:ss` back into a valid date-time. */
  function ParseIso(s: string): (r: Option<DateTime>)
    ensures r.Some? ==> Valid(r.value)
  {
    if |s| == 19 && s[10] == 'T' then
      var date :- ParseDatePart(s[..10]);
      var (hour, minute, second) :- ParseTimePart(s[11..]);
      var t := DateTime(date, hour, minute, second);
      if Valid(t) then Some(t) else None
    else
      None
  }

  lemma PadValue(n: nat, width: nat)
    requires width == 2 || width == 4
    requires n < (if width == 2 then 100 else 10000)
    ensures ValueOf(Pad(n, width)) == n
  {
    assert Pow10(2) == 100 && Pow10(4) == 10000 by {
      assert Pow10(1) == 10 && Pow10(3) == 1000;
    }
  }

  lemma ParseDatePartOf(d: Date)
    requires ValidDate(d)
    ensures ParseDatePart(DatePart(d)) == Some(d)
  {
    var s := DatePart(d);
    assert s[0..4] == Pad(d.year, 4);
    assert s[5..7] == Pad(d.month, 2);
    assert s[8..10] == Pad(d.day, 2);
    PadValue(d.year, 4);
    PadValue(d.month, 2);
    PadValue(d.day, 2);
  }

  lemma ParseTimePartOf(t: DateTime)
    requires Valid(t)
    ensures ParseTimePart(TimePart(t)) == Some((t.hour, t.minute, t.second))
  {
    var s := TimePart(t);
    assert s[0..2] == Pad(t.hour, 2);
    assert s[3..5] == Pad(t.minute, 2);
    assert s[6..8] == Pad(t.second, 2);
    PadValue(t.hour, 2);
    PadValue(t.minute, 2);
    PadValue(t.second, 2);
  }

  /** Reading back what `isoformat()` wrote gives the same date-time. */
  lemma ParseIsoFormat(t: DateTime)
    requires Valid(t)
    ensures ParseIso(IsoFormat(t)) == Some(t)
  {
    var s := IsoFormat(t);
    assert s[..10] == DatePart(t.date);
    assert s[11..] == TimePart(t);
    ParseDatePartOf(t.date);
    ParseTimePartOf(t);
  }

  /** Distinct date-times are written differently. */
  lemma IsoFormatInjective(a: DateTime, b: DateTime)
    requires Valid(a) && Valid(b)
    requires IsoFormat(a) == IsoFormat(b)
    ensures a == b
  {
    ParseIsoFormat(a);
    ParseIsoFormat(b);
  }
}
