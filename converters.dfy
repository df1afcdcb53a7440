/** The wire form of a Pivotal timestamp: `DateTime.ToString("yyyy/MM/dd hh:mm:ss")`
    followed by " UTC" on the way out, and `DateTime.ParseExact` with the same
    pattern, after dropping the last four characters, on the way in.

    A date/time is a whole-second record. The pattern's hour field is `hh`,
    the 12-hour clock, and the pattern has no AM/PM field: formatting writes
    12 for midnight and noon and 1..11 for the other hours, and parsing reads
    every hour as a morning hour (12 reads as 0, 13 and above are rejected),
    so an afternoon time comes back twelve hours early. */
module PivotalConverters {
  import opened Base
  import opened Text

  datatype DateTimeValue = DateTimeValue(year: int, month: int, day: int,
                                         hour: int, minute: int, second: int)

  predicate IsLeapYear(y: int)
  {
    y % 4 == 0 && (y % 100 != 0 || y % 400 == 0)
  }

  function DaysInMonth(y: int, m: int): int
  {
    if m == 2 then (if IsLeapYear(y) then 29 else 28)
    else if m == 4 || m == 6 || m == 9 || m == 11 then 30
    else 31
  }

  /** The instants a `DateTime` can hold, to the second: years 1 to 9999 of
      the proleptic Gregorian calendar. */
  predicate ValidDateTime(d: DateTimeValue)
  {
    1 <= d.year <= 9999 && 1 <= d.month <= 12 && 1 <= d.day <= DaysInMonth(d.year, d.month) &&
    0 <= d.hour < 24 && 0 <= d.minute < 60 && 0 <= d.second < 60
  }

  type DateTime = d: DateTimeValue | ValidDateTime(d) witness DateTimeValue(1, 1, 1, 0, 0, 0)

  /** `new DateTime()`: midnight of 1 January of year 1. */
  const Zero: DateTime := DateTimeValue(1, 1, 1, 0, 0, 0)

  /** The hour as the `hh` field writes it. */
  function Hour12(h: int): (r: nat)
    requires 0 <= h < 24
    ensures 1 <= r <= 12 && r % 12 == h % 12
  {
    if h % 12 == 0 then 12 else h % 12
  }

  /** `d.ToString("yyyy/MM/dd hh:mm:ss")`: nineteen characters, every field
      zero-padded to its width. */
  function Format(d: DateTime): (s: string)
    ensures |s| == 19
  {
    Pad(d.year, 4) + "/" + Pad(d.month, 2) + "/" + Pad(d.day, 2) + " " +
    Pad(Hour12(d.hour), 2) + ":" + Pad(d.minute, 2) + ":" + Pad(d.second, 2)
  }

  /** The shape `dddd/dd/dd dd:dd:dd`. */
  predicate HasPatternShape(s: string)
  {
    |s| == 19 && s[4] == '/' && s[7] == '/' && s[10] == ' ' && s[13] == ':' && s[16] == ':' &&
    AllDigits(s[0..4]) && AllDigits(s[5..7]) && AllDigits(s[8..10]) &&
    AllDigits(s[11..13]) && AllDigits(s[14..16]) && AllDigits(s[17..19])
  }

  /** `DateTime.ParseExact(s, "yyyy/MM/dd hh:mm:ss", en-US, NoCurrentDateDefault)`:
      None where .NET throws a FormatException. Every field has its exact
      width, the hour must be 0 to 12 and is read as a morning hour, and
      the date must exist in the calendar. */
  function ParseExact(s: string): (r: Option<DateTime>)
    ensures r.Some? ==> HasPatternShape(s) && r.value.hour < 12
  {
    if !HasPatternShape(s) then None
    else
      var h := ParseDigits(s[11..13]);
      var d := DateTimeValue(ParseDigits(s[0..4]), ParseDigits(s[5..7]), ParseDigits(s[8..10]),
                             h % 12, ParseDigits(s[14..16]), ParseDigits(s[17..19]));
      if h > 12 || !ValidDateTime(d) then None else Some(d)
  }

  /** `PivotalConverters.ConvertToPivotalDateTime`. */
  function ConvertToPivotalDateTime(d: DateTime): (s: string)
    ensures |s| == 23 && s[19..] == " UTC"
  {
    Format(d) + " UTC"
  }

  /** `PivotalConverters.ConvertFromPivotalDateTime`: the last four characters
      are dropped and the rest parsed; null, a string shorter than four
      characters, or a prefix the pattern rejects throws. */
  function ConvertFromPivotalDateTime(value: Option<string>): (r: Result<DateTime>)
    ensures r.Ok? ==> value.Some? && |value.value| == 23
    ensures value.Some? && |value.value| < 4 ==> r == Err(ArgumentOutOfRange)
  {
    match value
    case None => Err(NullReference)
    case Some(v) =>
      if |v| < 4 then Err(ArgumentOutOfRange)
      else
        match ParseExact(v[..|v| - 4])
        case Some(d) => Ok(d)
        case None => Err(Exception.Format)
  }

  /** The rule every timestamp setter applies to a non-null wire string:
      parse the text without its last four characters when it is longer
      than four characters, and fall back to `new DateTime()` when it is
      not or when the parse throws. */
  function WireToDateTime(v: string): (d: DateTime)
    ensures |v| <= 4 ==> d == Zero
  {
    if |v| > 4 then
      match ParseExact(v[..|v| - 4])
      case Some(d) => d
      case None => Zero
    else Zero
  }

  /** The same instant read back in the morning. */
  function Morning(d: DateTime): (m: DateTime)
    ensures m.hour < 12
  {
    d.(hour := d.hour % 12)
  }

  // ---------------------------------------------------------------------
  // Properties
  // ---------------------------------------------------------------------

  /** Six fields of widths 4, 2, 2, 2, 2, 2 joined by the pattern's
      separators sit at fixed positions. */
  lemma {:induction false} FieldPositions(a: string, b: string, c: string, d: string, e: string, f: string)
    requires |a| == 4 && |b| == 2 && |c| == 2 && |d| == 2 && |e| == 2 && |f| == 2
    ensures var s := a + "/" + b + "/" + c + " " + d + ":" + e + ":" + f;
      |s| == 19 &&
      s[0..4] == a && s[4] == '/' && s[5..7] == b && s[7] == '/' &&
      s[8..10] == c && s[10] == ' ' && s[11..13] == d &&
      s[13] == ':' && s[14..16] == e && s[16] == ':' && s[17..19] == f
  {
    var s := a + "/" + b + "/" + c + " " + d + ":" + e + ":" + f;
    assert forall k | 0 <= k < 4 :: s[k] == a[k];
    assert forall k | 0 <= k < 2 ::
      s[5 + k] == b[k] && s[8 + k] == c[k] && s[11 + k] == d[k] && s[14 + k] == e[k] && s[17 + k] == f[k];
  }

  /** Where each field of the formatted text sits. */
  lemma {:induction false} FormatFields(d: DateTime)
    ensures var s := Format(d);
      s[0..4] == Pad(d.year, 4) && s[4] == '/' && s[5..7] == Pad(d.month, 2) && s[7] == '/' &&
      s[8..10] == Pad(d.day, 2) && s[10] == ' ' && s[11..13] == Pad(Hour12(d.hour), 2) &&
      s[13] == ':' && s[14..16] == Pad(d.minute, 2) && s[16] == ':' && s[17..19] == Pad(d.second, 2)
  {
    FieldPositions(Pad(d.year, 4), Pad(d.month, 2), Pad(d.day, 2), Pad(Hour12(d.hour), 2),
                   Pad(d.minute, 2), Pad(d.second, 2));
  }

  /** Parsing the formatted text gives the instant back, moved to the
      morning when it was an afternoon time. */
  lemma {:induction false} ParseFormat(d: DateTime)
    ensures ParseExact(Format(d)) == Some(Morning(d))
  {
    FormatFields(d);
    ParseFields(Format(d), d);
  }

  /** A text holding the padded fields of `d` at their positions parses
      to `d` moved to the morning. */
  lemma {:induction false} ParseFields(s: string, d: DateTime)
    requires |s| == 19 && s[4] == '/' && s[7] == '/' && s[10] == ' ' && s[13] == ':' && s[16] == ':'
    requires s[0..4] == Pad(d.year, 4) && s[5..7] == Pad(d.month, 2) && s[8..10] == Pad(d.day, 2)
    requires s[11..13] == Pad(Hour12(d.hour), 2) && s[14..16] == Pad(d.minute, 2) && s[17..19] == Pad(d.second, 2)
    ensures ParseExact(s) == Some(Morning(d))
  {
    ParsePad(d.year, 4);
    ParsePad(d.month, 2);
    ParsePad(d.day, 2);
    ParsePad(Hour12(d.hour), 2);
    ParsePad(d.minute, 2);
    ParsePad(d.second, 2);
    assert HasPatternShape(s);
    assert Hour12(d.hour) % 12 == d.hour % 12;
  }

  /** A nineteen-character text is its six fields and five separators. */
  lemma {:induction false} Assemble(s: string)
    requires |s| == 19
    ensures s == s[0..4] + [s[4]] + s[5..7] + [s[7]] + s[8..10] + [s[10]] +
                 s[11..13] + [s[13]] + s[14..16] + [s[16]] + s[17..19]
  {
  }

  /** The fields of a parsed value, as read from the text. */
  lemma {:induction false} ParsedFields(s: string)
    requires ParseExact(s).Some?
    ensures var d := ParseExact(s).value;
      HasPatternShape(s) &&
      d.year == ParseDigits(s[0..4]) && d.month == ParseDigits(s[5..7]) &&
      d.day == ParseDigits(s[8..10]) && ParseDigits(s[11..13]) <= 12 &&
      d.hour == ParseDigits(s[11..13]) % 12 &&
      d.minute == ParseDigits(s[14..16]) && d.second == ParseDigits(s[17..19])
  {
  }

  /** Formatting a parsed value restores the text, except that an hour
      written "00" comes back as "12". */
  lemma {:induction false} FormatParse(s: string)
    requires ParseExact(s).Some?
    ensures var t := Format(ParseExact(s).value);
      t[..11] == s[..11] && t[13..] == s[13..] &&
      t[11..13] == (if s[11..13] == "00" then "12" else s[11..13])
    ensures s[11..13] != "00" ==> Format(ParseExact(s).value) == s
  {
    var d := ParseExact(s).value;
    ParsedFields(s);
    FormatFields(d);
    RewrittenFields(s, Format(d), d);
  }

  /** A text whose fields are the padded fields of `d`, where `d` was read
      from `s`, agrees with `s` outside the hour field. */
  lemma {:induction false} RewrittenFields(s: string, t: string, d: DateTime)
    requires HasPatternShape(s) && ParseDigits(s[11..13]) <= 12
    requires d.year == ParseDigits(s[0..4]) && d.month == ParseDigits(s[5..7]) &&
             d.day == ParseDigits(s[8..10]) && d.hour == ParseDigits(s[11..13]) % 12 &&
             d.minute == ParseDigits(s[14..16]) && d.second == ParseDigits(s[17..19])
    requires |t| == 19 && t[4] == '/' && t[7] == '/' && t[10] == ' ' && t[13] == ':' && t[16] == ':'
    requires t[0..4] == Pad(d.year, 4) && t[5..7] == Pad(d.month, 2) && t[8..10] == Pad(d.day, 2)
    requires t[11..13] == Pad(Hour12(d.hour), 2) && t[14..16] == Pad(d.minute, 2) && t[17..19] == Pad(d.second, 2)
    ensures t[..11] == s[..11] && t[13..] == s[13..] &&
      t[11..13] == (if s[11..13] == "00" then "12" else s[11..13])
    ensures s[11..13] != "00" ==> t == s
  {
    PadParse(s[0..4]);
    PadParse(s[5..7]);
    PadParse(s[8..10]);
    PadParse(s[14..16]);
    PadParse(s[17..19]);
    HourField(s[11..13], d.hour, t[11..13]);
    SameOutsideHour(s, t);
  }

  /** Two 19-character texts with the same fields and separators outside
      positions 11 and 12 share their prefix and suffix around the hour. */
  lemma {:induction false} SameOutsideHour(s: string, t: string)
    requires |s| == 19 && |t| == 19
    requires t[0..4] == s[0..4] && t[5..7] == s[5..7] && t[8..10] == s[8..10]
    requires t[14..16] == s[14..16] && t[17..19] == s[17..19]
    requires t[4] == s[4] && t[7] == s[7] && t[10] == s[10] && t[13] == s[13] && t[16] == s[16]
    ensures t[..11] == s[..11] && t[13..] == s[13..]
    ensures t[11..13] == s[11..13] ==> t == s
  {
    Assemble(s);
    Assemble(t);
  }

  /** The hour field written back for an hour read from `x`. */
  lemma {:induction false} HourField(x: string, hour: int, y: string)
    requires |x| == 2 && AllDigits(x) && ParseDigits(x) <= 12 && hour == ParseDigits(x) % 12
    requires y == Pad(Hour12(hour), 2)
    ensures y == if x == "00" then "12" else x
  {
    if ParseDigits(x) == 0 {
      MidnightHourField(x, hour);
    } else {
      OtherHourField(x, hour);
    }
  }

  /** An hour read from "00" is written back as "12". */
  lemma {:induction false} MidnightHourField(x: string, hour: int)
    requires |x| == 2 && AllDigits(x) && ParseDigits(x) == 0 && hour == 0
    ensures x == "00" && Pad(Hour12(hour), 2) == "12"
  {
    PadParse(x);
    PadZero();
    PadTwelve();
  }

  /** An hour read from "01" to "12" is written back unchanged. */
  lemma {:induction false} OtherHourField(x: string, hour: int)
    requires |x| == 2 && AllDigits(x) && 1 <= ParseDigits(x) <= 12 && hour == ParseDigits(x) % 12
    ensures x != "00" && Pad(Hour12(hour), 2) == x
  {
    var h := ParseDigits(x);
    Hour12OfMorningHour(h);
    PadParse(x);
    ParseZeroZero();
  }

  /** The `hh` field of the hour read from `h` (1 to 12) is `h` again. */
  lemma {:induction false} Hour12OfMorningHour(h: int)
    requires 1 <= h <= 12
    ensures Hour12(h % 12) == h
  {
    if h == 12 {
      assert h % 12 == 0;
    } else {
      assert h % 12 == h;
    }
  }

  lemma {:induction false} PadZero()
    ensures Pad(0, 2) == "00"
  {
    assert Pad(0, 1) == "0";
  }

  lemma {:induction false} PadTwelve()
    ensures Pad(12, 2) == "12"
  {
    assert Pad(1, 1) == "1";
  }

  lemma {:induction false} ParseZeroZero()
    ensures ParseDigits("00") == 0
  {
    assert "00"[..1] == "0";
    assert "0"[..0] == "";
  }

  /** `ConvertFromPivotalDateTime(ConvertToPivotalDateTime(d))` parses exactly
      the formatted prefix, so it returns `d` precisely for morning times
      and `d` less twelve hours otherwise. */
  lemma {:induction false} ConvertRoundTrip(d: DateTime)
    ensures ConvertFromPivotalDateTime(Some(ConvertToPivotalDateTime(d))) == Ok(Morning(d))
    ensures ConvertFromPivotalDateTime(Some(ConvertToPivotalDateTime(d))) == Ok(d) <==> d.hour < 12
  {
    RenderedPrefix(d);
    ParseFormat(d);
    MorningUnchanged(d);
  }

  /** The rendered text is the formatted instant followed by four characters. */
  lemma {:induction false} RenderedPrefix(d: DateTime)
    ensures var v := ConvertToPivotalDateTime(d); |v| == 23 && v[..|v| - 4] == Format(d)
  {
    PrefixOfAppend(Format(d), " UTC");
  }

  lemma {:induction false} PrefixOfAppend(a: string, b: string)
    ensures (a + b)[..|a|] == a
  {
    assert forall k | 0 <= k < |a| :: (a + b)[k] == a[k];
  }

  /** Moving to the morning changes an instant exactly when it is an
      afternoon time. */
  lemma {:induction false} MorningUnchanged(d: DateTime)
    ensures Morning(d) == d <==> d.hour < 12
  {
    if d.hour < 12 {
      assert d.hour % 12 == d.hour;
    } else {
      assert Morning(d).hour != d.hour;
    }
  }

  /** A wire string the service sends in canonical form (four-digit year,
      an hour other than "00", any four-character zone suffix) keeps its
      instant when rendered again; only the suffix becomes " UTC". */
  lemma {:induction false} WireRoundTrip(v: string)
    requires |v| > 4 && ParseExact(v[..|v| - 4]).Some? && v[11..13] != "00"
    ensures ConvertToPivotalDateTime(WireToDateTime(v)) == v[..|v| - 4] + " UTC"
  {
    var p := v[..|v| - 4];
    assert p[11..13] == v[11..13];
    FormatParse(p);
  }

  /** Reading a rendered timestamp back through a setter gives the instant
      back exactly when it is a morning time. */
  lemma {:induction false} WireToDateTimeOfRendered(d: DateTime)
    ensures WireToDateTime(ConvertToPivotalDateTime(d)) == Morning(d)
    ensures WireToDateTime(ConvertToPivotalDateTime(d)) == d <==> d.hour < 12
  {
    RenderedPrefix(d);
    ParseFormat(d);
    MorningUnchanged(d);
  }

  /** The setters that call `ConvertFromPivotalDateTime` inside try/catch
      (the note's) and the setters that inline the parse (story, task,
      iteration) agree on every string longer than four characters. */
  lemma {:induction false} ConverterMatchesInlineParse(v: string)
    requires |v| > 4
    ensures WireToDateTime(v) == match ConvertFromPivotalDateTime(Some(v))
                                 case Ok(d) => d
                                 case Err(_) => Zero
  {
  }
}
