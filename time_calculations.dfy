/**
 * The appointment availability engine of src/utils/timeCalculations.ts.
 *
 * Times of day are integer minutes counted from 9:00 (`WorkStart`). A booking becomes a block
 * `[start, end)`, and a candidate interval is free when it lies inside the 600-minute working
 * window and meets none of the blocks. The window's length is a literal in the source, not
 * `WORK_END - WORK_START`; `WindowLength` stands for that literal.
 */
module TimeCalculations {
  import opened Wrappers
  import opened JsText

  /** 9:00, in minutes from midnight. */
  const WorkStart: int := 9 * 60
  /** 19:00, in minutes from midnight; declared by the source and never read by it. */
  const WorkEnd: int := 19 * 60
  /** The literal 600 that bounds every candidate (9:00 to 19:00). */
  const WindowLength: int := 600

  /** The Arabic meridiem markers: `م` (after noon) and `ص` (before noon). */
  const PmMarker: string := "م"
  const AmMarker: string := "ص"

  /** A booked interval `[start, end)` in minutes from 9:00; `end` is NaN when the duration does not parse. */
  datatype TimeBlock = TimeBlock(start: int, end: Num, labelText: string)

  /** The two fields of an approved booking the engine reads. */
  datatype Booking = Booking(bookingTime: string, bookingDuration: string)

  /** The two capture groups of `/(\d+):(\d+)/`. */
  datatype TimeMatch = TimeMatch(hourDigits: string, minuteDigits: string)

  // ---------------------------------------------------------------- parseTimeToMinutes

  /** The end of the run of digits starting at `i`. */
  function DigitRunEnd(s: string, i: nat): (j: nat)
    requires i <= |s|
    ensures i <= j <= |s|
    ensures forall k :: i <= k < j ==> IsDigit(s[k])
    ensures j == |s| || !IsDigit(s[j])
    decreases |s| - i
  {
    if i < |s| && IsDigit(s[i]) then DigitRunEnd(s, i + 1) else i
  }

  /** The leftmost match of `/(\d+):(\d+)/` that starts at or after `i`. */
  function MatchTimeFrom(s: string, i: nat): (r: Option<TimeMatch>)
    requires i <= |s|
    ensures r.Some? ==> |r.value.hourDigits| > 0 && AllDigits(r.value.hourDigits)
    ensures r.Some? ==> |r.value.minuteDigits| > 0 && AllDigits(r.value.minuteDigits)
    decreases |s| - i
  {
    if i == |s| then None
    else
      var j := DigitRunEnd(s, i);
      if i < j && j + 1 < |s| && s[j] == ':' && IsDigit(s[j + 1]) then
        Some(TimeMatch(s[i..j], s[j + 1..DigitRunEnd(s, j + 1)]))
      else
        MatchTimeFrom(s, i + 1)
  }

  /** `s.match(/(\d+):(\d+)/)`. */
  function MatchTime(s: string): Option<TimeMatch> { MatchTimeFrom(s, 0) }

  /** A digit at `p`, a colon after it and a digit after that: the shortest text the pattern matches. */
  predicate TimePatternAt(s: string, p: nat) {
    p + 2 < |s| && IsDigit(s[p]) && s[p + 1] == ':' && IsDigit(s[p + 2])
  }

  /** `s` contains some `digits:digits`. */
  ghost predicate HasTimePattern(s: string) { exists p: nat :: TimePatternAt(s, p) }

  lemma {:induction false} MatchTimeFromNoneIff(s: string, i: nat)
    requires i <= |s|
    ensures MatchTimeFrom(s, i).None? <==> forall p: nat :: i <= p ==> !TimePatternAt(s, p)
    decreases |s| - i
  {
    if i < |s| {
      var j := DigitRunEnd(s, i);
      if i < j && j + 1 < |s| && s[j] == ':' && IsDigit(s[j + 1]) {
        assert TimePatternAt(s, j - 1);
      } else {
        assert !TimePatternAt(s, i);
        MatchTimeFromNoneIff(s, i + 1);
      }
    }
  }

  /** The regular expression finds nothing exactly when no digit-colon-digit occurs. */
  lemma MatchTimeNoneIff(s: string)
    ensures MatchTime(s).None? <==> !HasTimePattern(s)
  {
    MatchTimeFromNoneIff(s, 0);
  }

  /** The markers `parseTimeToMinutes` looks for, anywhere in the trimmed text. */
  predicate HasPmMarker(s: string) { Contains(s, PmMarker) || Contains(s, "PM") || Contains(s, "pm") }
  predicate HasAmMarker(s: string) { Contains(s, AmMarker) || Contains(s, "AM") || Contains(s, "am") }

  /** The hour on a 24-hour clock: PM moves 1..11 (and 13 and over) by 12, AM turns 12 into 0. */
  function Hour24(hour: int, isPM: bool, isAM: bool): int {
    if isPM && hour != 12 then hour + 12
    else if isAM && hour == 12 then 0
    else hour
  }

  /** `parseTimeToMinutes`: minutes from 9:00 of a time such as "02:00 م" or "9:00 AM"; 0 when no time is found. */
  function ParseTimeToMinutes(timeString: string): int {
    var cleaned := Trim(timeString);
    match MatchTime(cleaned)
    case None => 0
    case Some(m) =>
      var hour := DigitsValue(m.hourDigits);
      var minute := DigitsValue(m.minuteDigits);
      Hour24(hour, HasPmMarker(cleaned), HasAmMarker(cleaned)) * 60 + minute - WorkStart
  }

  /** `trim` cuts white space off both ends and keeps the middle as it is. */
  lemma TrimIsSlice(s: string) returns (a: nat, b: nat)
    ensures a <= b <= |s| && Trim(s) == s[a..b]
    ensures forall k :: 0 <= k < a ==> IsSpace(s[k])
    ensures forall k :: b <= k < |s| ==> IsSpace(s[k])
  {
    var t := TrimStart(s);
    var u := TrimEnd(t);
    a := |s| - |t|;
    b := a + |u|;
    assert forall k :: 0 <= k < a ==> IsSpace(s[k]) by {
      TrimStartDropsSpace(s);
    }
    assert u == s[a..b] by {
      assert t == s[a..] && u == t[..|u|];
      forall i | 0 <= i < |u| ensures u[i] == s[a + i] {
        assert u[i] == t[i];
      }
    }
    assert forall k :: b <= k < |s| ==> IsSpace(s[k]) by {
      TrimEndDropsSpace(t);
      assert t == s[a..];
      forall k | b <= k < |s| ensures IsSpace(s[k]) {
        assert s[k] == t[k - a];
      }
    }
  }

  /** Cutting white space off the ends neither creates nor destroys a `digits:digits`. */
  lemma SliceKeepsTimePattern(s: string, a: nat, b: nat)
    requires a <= b <= |s|
    requires forall k :: 0 <= k < a ==> IsSpace(s[k])
    requires forall k :: b <= k < |s| ==> IsSpace(s[k])
    ensures HasTimePattern(s[a..b]) <==> HasTimePattern(s)
  {
    var u := s[a..b];
    if HasTimePattern(u) {
      var p: nat :| TimePatternAt(u, p);
      assert TimePatternAt(s, a + p);
    }
    if HasTimePattern(s) {
      var p: nat :| TimePatternAt(s, p);
      assert !IsSpace(s[p]) && !IsSpace(s[p + 2]);
      assert TimePatternAt(u, p - a);
    }
  }

  /** `trim` neither creates nor destroys a `digits:digits`. */
  lemma TrimKeepsTimePattern(s: string)
    ensures HasTimePattern(Trim(s)) <==> HasTimePattern(s)
  {
    var a, b := TrimIsSlice(s);
    SliceKeepsTimePattern(s, a, b);
  }

  /** Text with no `digits:digits` in it is read as 9:00, not as midnight. */
  lemma UnparseableTimeIsNine(timeString: string)
    requires !HasTimePattern(timeString)
    ensures ParseTimeToMinutes(timeString) == 0
  {
    TrimKeepsTimePattern(timeString);
    MatchTimeNoneIff(Trim(timeString));
  }

  /**
   * The meridiem rule, for a text whose first `digits:digits` is `hh:mm`, case by case: a PM marker moves
   * every hour but 12 on by twelve, whatever else the text says; an AM marker turns 12 into 0, even beside
   * a PM marker; 12 with a PM marker alone stays 12; and any other hour is taken as it stands.
   */
  lemma ParseTimeMeridiem(timeString: string, hh: string, mm: string)
    requires MatchTime(Trim(timeString)) == Some(TimeMatch(hh, mm))
    ensures HasPmMarker(Trim(timeString)) && DigitsValue(hh) != 12 ==>
      ParseTimeToMinutes(timeString) == (DigitsValue(hh) + 12) * 60 + DigitsValue(mm) - 540
    ensures HasAmMarker(Trim(timeString)) && DigitsValue(hh) == 12 ==>
      ParseTimeToMinutes(timeString) == DigitsValue(mm) - 540
    ensures HasPmMarker(Trim(timeString)) && !HasAmMarker(Trim(timeString)) && DigitsValue(hh) == 12 ==>
      ParseTimeToMinutes(timeString) == 12 * 60 + DigitsValue(mm) - 540
    ensures !HasPmMarker(Trim(timeString)) && !(HasAmMarker(Trim(timeString)) && DigitsValue(hh) == 12) ==>
      ParseTimeToMinutes(timeString) == DigitsValue(hh) * 60 + DigitsValue(mm) - 540
  {
  }

  // ---------------------------------------------------------------- parseDuration

  /** `a` divided by `10^k` is a whole number. */
  predicate DividesByPow10(a: int, k: nat)
    decreases k
  {
    k == 0 || (a % 10 == 0 && DividesByPow10(a / 10, k - 1))
  }

  /** `a / 10^k`, one division by ten at a time, for an `a` it divides exactly. */
  function ShiftDown(a: int, k: nat): (r: int)
    requires DividesByPow10(a, k)
    ensures r * Pow10(k) == a
    decreases k
  {
    if k == 0 then a else ShiftDown(a / 10, k - 1)
  }

  /**
   * The duration texts for which `hours * 60` is a whole number of minutes ("1 hr", "1.5 hr"): the only
   * ones the model computes, since the source works in floating point there.
   */
  predicate WholeMinuteDuration(s: string) {
    Contains(s, "mins") ||
    match ParseFloat(s)
    case None => true
    case Some(hours) => DividesByPow10(hours.mantissa * 60, hours.places)
  }

  /** `parseDuration`: `parseInt` of a "N mins" text, otherwise the hours of `parseFloat` times 60. */
  function ParseDuration(durationString: string): Num
    requires WholeMinuteDuration(durationString)
  {
    if Contains(durationString, "mins") then ParseInt(durationString)
    else
      match ParseFloat(durationString)
      case None => NaN
      case Some(hours) => Finite(ShiftDown(hours.mantissa * 60, hours.places))
  }

  /** An hours text gives sixty times the decimal number it starts with, exactly. */
  lemma ParseDurationOfHours(durationString: string)
    requires WholeMinuteDuration(durationString) && !Contains(durationString, "mins")
    ensures ParseFloat(durationString).None? <==> ParseDuration(durationString).NaN?
    ensures ParseFloat(durationString).Some? ==>
      ParseDuration(durationString).n * Pow10(ParseFloat(durationString).value.places)
        == ParseFloat(durationString).value.mantissa * 60
  {
  }

  /** An hours text whose decimal number times 60 is whole gives exactly that many minutes. */
  lemma ParseDurationOfDecimal(s: string, hours: Decimal)
    requires !Contains(s, "mins") && ParseFloat(s) == Some(hours)
    requires DividesByPow10(hours.mantissa * 60, hours.places)
    ensures WholeMinuteDuration(s) && ParseDuration(s) == Finite(ShiftDown(hours.mantissa * 60, hours.places))
  {
  }

  /** A "N mins" text gives what `parseInt` reads from it. */
  lemma ParseDurationOfMinutes(durationString: string)
    requires Contains(durationString, "mins")
    ensures WholeMinuteDuration(durationString) && ParseDuration(durationString) == ParseInt(durationString)
  {
  }

  // ---------------------------------------------------------------- minutesToTime

  /** JavaScript's `a % 60`: the remainder takes the sign of `a`. */
  function JsRem60(a: int): int {
    if a >= 0 then a % 60 else -((-a) % 60)
  }

  /** "HH:MM": both numbers written with `toString` and padded to two digits. */
  function ClockText(hour: int, minute: int): string {
    PadStart2(IntToString(hour)) + ":" + PadStart2(IntToString(minute))
  }

  /** `minutesToTime`: "HH:MM" on a 24-hour clock, or "HH:MM م" / "HH:MM ص" on a 12-hour clock. */
  function MinutesToTime(minutes: int, use24Hour: bool): string {
    var totalMinutes := WorkStart + minutes;
    var hour := totalMinutes / 60;
    var minute := JsRem60(totalMinutes);
    if use24Hour then
      ClockText(hour, minute)
    else
      var isPM := hour >= 12;
      var hour12 := if hour > 12 then hour - 12 else hour;
      var shown := if hour12 == 0 then 12 else hour12;
      ClockText(shown, minute) + " " + (if isPM then PmMarker else AmMarker)
  }

  /** The hour a 12-hour dial shows for a 24-hour `hour`. */
  function DialHour(hour: nat): (h: nat)
    ensures 1 <= h <= 12
  {
    if hour % 12 == 0 then 12 else hour % 12
  }

  /** Numbers below 100 are written as exactly two digits each. */
  lemma ClockTextDigits(hour: nat, minute: nat)
    requires hour < 100 && minute < 100
    ensures ClockText(hour, minute) ==
      [DigitChar(hour / 10), DigitChar(hour % 10), ':', DigitChar(minute / 10), DigitChar(minute % 10)]
  {
    TwoDigits(hour);
    TwoDigits(minute);
  }

  /** Within a day, the 24-hour form shows the hour and minute of 9:00 plus `m`. */
  lemma MinutesToTime24WithinDay(m: int)
    requires 0 <= WorkStart + m < 24 * 60
    ensures MinutesToTime(m, true) == ClockText((540 + m) / 60, (540 + m) % 60)
  {
  }

  /**
   * Within a day, the 12-hour form shows the dial hour 1..12 and the minute of 9:00 plus `m`,
   * marked `م` exactly from noon on and `ص` before.
   */
  lemma MinutesToTime12WithinDay(m: int)
    requires 0 <= WorkStart + m < 24 * 60
    ensures MinutesToTime(m, false) ==
      ClockText(DialHour((540 + m) / 60), (540 + m) % 60) + " " + (if 540 + m >= 720 then PmMarker else AmMarker)
  {
    var hour := (540 + m) / 60;
    assert 0 <= hour < 24;
    assert 540 + m >= 720 <==> hour >= 12;
    assert JsRem60(540 + m) == (540 + m) % 60;
    var hour12 := if hour > 12 then hour - 12 else hour;
    assert (if hour12 == 0 then 12 else hour12) == DialHour(hour);
  }

  /** Two digits, a colon and two digits, optionally followed by a space and one marker character. */
  predicate ClockShape(s: string) {
    (|s| == 5 || (|s| == 7 && s[5] == ' ' && !IsSpace(s[6]) && !IsDigit(s[6])))
    && IsDigit(s[0]) && IsDigit(s[1]) && s[2] == ':' && IsDigit(s[3]) && IsDigit(s[4])
  }

  lemma ClockShapeMatch(s: string)
    requires ClockShape(s)
    ensures MatchTime(s) == Some(TimeMatch(s[0..2], s[3..5]))
  {
    assert DigitRunEnd(s, 5) == 5;
    assert DigitRunEnd(s, 4) == 5;
    assert DigitRunEnd(s, 2) == 2;
    assert DigitRunEnd(s, 1) == 2;
  }

  /** The value of a clock-shaped text: its hour through the meridiem rule, and its minutes. */
  lemma ParseClockShape(s: string)
    requires ClockShape(s)
    ensures ParseTimeToMinutes(s) ==
      Hour24(10 * DigitVal(s[0]) + DigitVal(s[1]), HasPmMarker(s), HasAmMarker(s)) * 60
      + 10 * DigitVal(s[3]) + DigitVal(s[4]) - WorkStart
  {
    TrimNoOp(s);
    ClockShapeMatch(s);
    assert s[0..2] == [s[0], s[1]] && s[3..5] == [s[3], s[4]];
    TwoDigitsValue(s[0], s[1]);
    TwoDigitsValue(s[3], s[4]);
  }

  /** No marker occurs in a text made of digits and a colon. */
  lemma NoMarkers(s: string)
    requires forall k :: 0 <= k < |s| ==> IsDigit(s[k]) || s[k] == ':'
    ensures !HasPmMarker(s) && !HasAmMarker(s)
  {
    NotContainsWithoutFirstChar(s, PmMarker);
    NotContainsWithoutFirstChar(s, "PM");
    NotContainsWithoutFirstChar(s, "pm");
    NotContainsWithoutFirstChar(s, AmMarker);
    NotContainsWithoutFirstChar(s, "AM");
    NotContainsWithoutFirstChar(s, "am");
  }

  /** In "HH:MM " followed by one Arabic marker, that marker is the only one present. */
  lemma MarkersOfDialText(s: string, marker: string)
    requires ClockShape(s) && |s| == 7 && s[6..] == marker
    requires marker == PmMarker || marker == AmMarker
    ensures HasPmMarker(s) <==> marker == PmMarker
    ensures HasAmMarker(s) <==> marker == AmMarker
  {
    NotContainsWithoutFirstChar(s, "PM");
    NotContainsWithoutFirstChar(s, "pm");
    NotContainsWithoutFirstChar(s, "AM");
    NotContainsWithoutFirstChar(s, "am");
    ContainsAt(s, marker, 6);
    if marker == PmMarker {
      NotContainsWithoutFirstChar(s, AmMarker);
    } else {
      NotContainsWithoutFirstChar(s, PmMarker);
    }
  }

  /** A 24-hour "HH:MM" reads back as that hour and minute. */
  lemma ParseClockText24(hour: nat, minute: nat)
    requires hour < 100 && minute < 100
    ensures ParseTimeToMinutes(ClockText(hour, minute)) == hour * 60 + minute - WorkStart
  {
    var s := ClockText(hour, minute);
    ClockTextDigits(hour, minute);
    assert ClockShape(s);
    NoMarkers(s);
    ParseClockShape(s);
  }

  /** A 12-hour "HH:MM" with one Arabic marker reads back through the meridiem rule. */
  lemma ParseClockText12(hour: nat, minute: nat, marker: string)
    requires hour < 100 && minute < 100
    requires marker == PmMarker || marker == AmMarker
    ensures ParseTimeToMinutes(ClockText(hour, minute) + " " + marker) ==
      Hour24(hour, marker == PmMarker, marker == AmMarker) * 60 + minute - WorkStart
  {
    var s := ClockText(hour, minute) + " " + marker;
    ClockTextDigits(hour, minute);
    assert s[6..] == marker;
    assert ClockShape(s);
    MarkersOfDialText(s, marker);
    ParseClockShape(s);
  }

  /** Reading a dial hour with the marker of its half of the day gives the 24-hour hour back. */
  lemma DialHourRoundTrip(hour: nat)
    requires hour < 24
    ensures Hour24(DialHour(hour), hour >= 12, hour < 12) == hour
  {
  }

  /** Reading back a 24-hour time gives the minutes it was written from. */
  lemma RoundTrip24(m: int)
    requires 0 <= WorkStart + m < 24 * 60
    ensures ParseTimeToMinutes(MinutesToTime(m, true)) == m
  {
    MinutesToTime24WithinDay(m);
    ParseClockText24((540 + m) / 60, (540 + m) % 60);
  }

  /** Reading back a 12-hour time, with its Arabic marker, gives the minutes it was written from. */
  lemma RoundTrip12(m: int)
    requires 0 <= WorkStart + m < 24 * 60
    ensures ParseTimeToMinutes(MinutesToTime(m, false)) == m
  {
    var t := 540 + m;
    var h, mi := t / 60, t % 60;
    assert t >= 720 <==> h >= 12;
    MinutesToTime12WithinDay(m);
    var marker := if t >= 720 then PmMarker else AmMarker;
    ParseClockText12(DialHour(h), mi, marker);
    DialHourRoundTrip(h);
  }

  /** Both display forms read back to the minutes they were written from, anywhere within the day. */
  lemma RoundTrip(m: int, use24Hour: bool)
    requires 0 <= WorkStart + m < 24 * 60
    ensures ParseTimeToMinutes(MinutesToTime(m, use24Hour)) == m
  {
    if use24Hour { RoundTrip24(m); } else { RoundTrip12(m); }
  }

  // ---------------------------------------------------------------- calculateTimeBlocks

  /** The label a block carries: "<time> (<duration>)". */
  function BlockLabel(b: Booking): string {
    b.bookingTime + " (" + b.bookingDuration + ")"
  }

  predicate WholeMinuteBookings(bookings: seq<Booking>) {
    forall i :: 0 <= i < |bookings| ==> WholeMinuteDuration(bookings[i].bookingDuration)
  }

  /** `calculateTimeBlocks`: one block per booking, in order, from its parsed start and duration. */
  function CalculateTimeBlocks(bookings: seq<Booking>): (blocks: seq<TimeBlock>)
    requires WholeMinuteBookings(bookings)
    ensures |blocks| == |bookings|
    ensures forall i :: 0 <= i < |bookings| ==>
      blocks[i].start == ParseTimeToMinutes(bookings[i].bookingTime) &&
      blocks[i].end == Plus(Finite(blocks[i].start), ParseDuration(bookings[i].bookingDuration)) &&
      blocks[i].labelText == bookings[i].bookingTime + " (" + bookings[i].bookingDuration + ")"
  {
    seq(|bookings|, i requires 0 <= i < |bookings| && WholeMinuteBookings(bookings) =>
      var start := ParseTimeToMinutes(bookings[i].bookingTime);
      TimeBlock(start, Plus(Finite(start), ParseDuration(bookings[i].bookingDuration)), BlockLabel(bookings[i])))
  }

  // ---------------------------------------------------------------- isTimeSlotAvailable

  /** The three-clause overlap test of `isTimeSlotAvailable`, with JavaScript's comparisons against `end`. */
  predicate Hits(startMinutes: int, endMinutes: int, block: TimeBlock) {
    (startMinutes >= block.start && Lt(Finite(startMinutes), block.end))
    || (endMinutes > block.start && Le(Finite(endMinutes), block.end))
    || (startMinutes <= block.start && Le(block.end, Finite(endMinutes)))
  }

  /** What `isTimeSlotAvailable(start, duration, blocks)` answers. */
  predicate SlotAvailable(startMinutes: int, durationMinutes: int, blocks: seq<TimeBlock>) {
    0 <= startMinutes && startMinutes + durationMinutes <= WindowLength &&
    forall i :: 0 <= i < |blocks| ==> !Hits(startMinutes, startMinutes + durationMinutes, blocks[i])
  }

  /** `isTimeSlotAvailable`: the window check, then a scan of the blocks that stops at the first hit. */
  method IsTimeSlotAvailable(startMinutes: int, durationMinutes: int, bookedBlocks: seq<TimeBlock>)
    returns (available: bool)
    ensures available <==> SlotAvailable(startMinutes, durationMinutes, bookedBlocks)
  {
    var endMinutes := startMinutes + durationMinutes;
    if startMinutes < 0 || endMinutes > WindowLength {
      return false;
    }
    for i := 0 to |bookedBlocks|
      invariant forall k :: 0 <= k < i ==> !Hits(startMinutes, endMinutes, bookedBlocks[k])
    {
      if Hits(startMinutes, endMinutes, bookedBlocks[i]) {
        return false;
      }
    }
    return true;
  }

  /** A block with a numeric end after its start. */
  predicate NonEmptyBlock(b: TimeBlock) { b.end.Finite? && b.start < b.end.n }

  /** The usual test for two half-open intervals `[s, e)` and `[b.start, b.end)` sharing a minute. */
  predicate HalfOpenOverlap(s: int, e: int, b: TimeBlock) {
    b.end.Finite? && s < b.end.n && b.start < e
  }

  /** For a positive duration and a non-empty block, the three clauses say exactly "the intervals overlap". */
  lemma HitsIffHalfOpenOverlap(s: int, d: int, b: TimeBlock)
    requires d > 0 && NonEmptyBlock(b)
    ensures Hits(s, s + d, b) <==> HalfOpenOverlap(s, s + d, b)
  {
  }

  /** A block whose end is NaN never blocks anything, because every comparison with NaN is false. */
  lemma NaNBlockNeverHits(s: int, e: int, b: TimeBlock)
    requires b.end.NaN?
    ensures !Hits(s, e, b)
  {
  }

  /** Availability in the usual terms: inside the window and overlapping no block. */
  lemma {:induction false} AvailableIffNoOverlap(s: int, d: int, blocks: seq<TimeBlock>)
    requires d > 0
    requires forall i :: 0 <= i < |blocks| ==> NonEmptyBlock(blocks[i])
    ensures SlotAvailable(s, d, blocks) <==>
      0 <= s && s + d <= 600 && forall i :: 0 <= i < |blocks| ==> !HalfOpenOverlap(s, s + d, blocks[i])
  {
    forall i | 0 <= i < |blocks| ensures Hits(s, s + d, blocks[i]) <==> HalfOpenOverlap(s, s + d, blocks[i]) {
      HitsIffHalfOpenOverlap(s, d, blocks[i]);
    }
  }

  /**
   * Any block that meets a request of positive duration also meets every longer request from the same
   * start, whatever the block: empty, inverted or with a NaN end. (A request of no duration is the
   * exception: `[s, s)` meets a block ending at `s` through the second clause, a longer one may not.)
   */
  lemma HitsMonotone(s: int, d1: int, d2: int, b: TimeBlock)
    requires 0 < d1 <= d2
    ensures Hits(s, s + d1, b) ==> Hits(s, s + d2, b)
  {
  }

  /** The exception: a block ending at the start meets a request of no duration and no longer one. */
  lemma ZeroLengthRequestMeetsBlockEndingThere(s: int, d: int, b: TimeBlock)
    requires d > 0 && b.start < s && b.end == Finite(s)
    ensures Hits(s, s, b) && !Hits(s, s + d, b)
  {
  }

  /** Shortening a request never makes a free start busy, whatever blocks the bookings gave. */
  lemma {:induction false} AvailableForShorter(s: int, d1: int, d2: int, blocks: seq<TimeBlock>)
    requires 0 < d1 <= d2
    requires SlotAvailable(s, d2, blocks)
    ensures SlotAvailable(s, d1, blocks)
  {
    forall i | 0 <= i < |blocks|
      ensures !Hits(s, s + d1, blocks[i])
    {
      HitsMonotone(s, d1, d2, blocks[i]);
    }
  }

  // ---------------------------------------------------------------- candidates

  /** The `k`-th candidate start, `k * step` minutes after 9:00. */
  function Candidate(k: nat, step: int): int { k * step }

  lemma CandidateNext(k: nat, step: int)
    ensures Candidate(k + 1, step) == Candidate(k, step) + step
  {
  }

  lemma {:induction false} CandidateMonotone(j: nat, k: nat, step: int)
    requires j <= k && step > 0
    ensures Candidate(j, step) <= Candidate(k, step)
    decreases k - j
  {
    if j < k {
      CandidateMonotone(j, k - 1, step);
      assert Candidate(k, step) == Candidate(k - 1, step) + step;
    }
  }

  /** The number of available candidates from the `k`-th on, up to the last start `600 - d`. */
  function CountAvailableFrom(k: nat, d: int, blocks: seq<TimeBlock>, step: int): nat
    requires step > 0
    decreases WindowLength - d - Candidate(k, step) + step
  {
    if Candidate(k, step) > WindowLength - d then 0
    else
      CandidateNext(k, step);
      (if SlotAvailable(Candidate(k, step), d, blocks) then 1 else 0) + CountAvailableFrom(k + 1, d, blocks, step)
  }

  /** The count is zero exactly when no remaining candidate is available. */
  lemma {:induction false} CountZeroIff(k: nat, d: int, blocks: seq<TimeBlock>, step: int)
    requires step > 0
    ensures CountAvailableFrom(k, d, blocks, step) == 0 <==>
      forall j: nat :: k <= j && Candidate(j, step) <= WindowLength - d ==> !SlotAvailable(Candidate(j, step), d, blocks)
    decreases WindowLength - d - Candidate(k, step) + step
  {
    if Candidate(k, step) > WindowLength - d {
      forall j: nat | k <= j ensures Candidate(j, step) > WindowLength - d {
        CandidateMonotone(k, j, step);
      }
    } else {
      CandidateNext(k, step);
      CountZeroIff(k + 1, d, blocks, step);
    }
  }

  /** Asking for a longer duration never raises the number of available candidates. */
  lemma {:induction false} CountShrinksWithDuration(k: nat, d1: int, d2: int, blocks: seq<TimeBlock>, step: int)
    requires step > 0 && 0 < d1 <= d2
    ensures CountAvailableFrom(k, d2, blocks, step) <= CountAvailableFrom(k, d1, blocks, step)
    decreases WindowLength - d1 - Candidate(k, step) + step
  {
    if Candidate(k, step) <= WindowLength - d1 {
      CandidateNext(k, step);
      if SlotAvailable(Candidate(k, step), d2, blocks) {
        AvailableForShorter(Candidate(k, step), d1, d2, blocks);
      }
      CountShrinksWithDuration(k + 1, d1, d2, blocks, step);
    }
  }

  /** `generateTimeIntervals`: the 12-hour display of every `k * step` up to 600 inclusive. */
  method GenerateTimeIntervals(intervalMinutes: int) returns (intervals: seq<string>)
    requires intervalMinutes > 0
    ensures |intervals| > 0
    ensures forall k :: 0 <= k < |intervals| ==>
      Candidate(k, intervalMinutes) <= 600 && intervals[k] == MinutesToTime(Candidate(k, intervalMinutes), false)
    ensures Candidate(|intervals|, intervalMinutes) > 600
  {
    intervals := [];
    var minutes := 0;
    while minutes <= WindowLength
      invariant minutes == Candidate(|intervals|, intervalMinutes)
      invariant forall k :: 0 <= k < |intervals| ==>
        Candidate(k, intervalMinutes) <= 600 && intervals[k] == MinutesToTime(Candidate(k, intervalMinutes), false)
      decreases WindowLength - minutes + intervalMinutes
    {
      CandidateNext(|intervals|, intervalMinutes);
      intervals := intervals + [MinutesToTime(minutes, false)];
      minutes := minutes + intervalMinutes;
    }
  }

  /** What `generateTimeIntervals(30)` lists: 21 times, from 9:00 to 19:00. */
  lemma HalfHourIntervals(intervals: seq<string>)
    requires forall k :: 0 <= k < |intervals| ==> Candidate(k, 30) <= 600 && intervals[k] == MinutesToTime(Candidate(k, 30), false)
    requires Candidate(|intervals|, 30) > 600
    ensures |intervals| == 21
    ensures intervals[0] == "09:00 ص" && intervals[20] == "07:00 م"
  {
    NineInTheMorning();
    SevenInTheEvening();
    assert Candidate(21, 30) > 600;
    assert Candidate(0, 30) == 0 && Candidate(20, 30) == 600;
  }

  lemma NineInTheMorning()
    ensures MinutesToTime(0, false) == "09:00 ص"
  {
    MinutesToTime12WithinDay(0);
    assert DialHour(9) == 9;
    ClockTextDigits(9, 0);
    assert DigitChar(0) == '0' && DigitChar(9) == '9';
    assert ClockText(9, 0) == "09:00";
  }

  lemma SevenInTheEvening()
    ensures MinutesToTime(600, false) == "07:00 م"
  {
    MinutesToTime12WithinDay(600);
    assert (540 + 600) / 60 == 19 && (540 + 600) % 60 == 0;
    assert DialHour(19) == 7;
    ClockTextDigits(7, 0);
    assert DigitChar(7) == '7' && DigitChar(0) == '0';
    assert ClockText(7, 0) == "07:00";
  }

  /** `findNextAvailableSlot`: the display time of the first available candidate, or `None` (`null`). */
  method FindNextAvailableSlot(durationMinutes: int, bookedBlocks: seq<TimeBlock>, intervalMinutes: int)
    returns (slot: Option<string>)
    requires intervalMinutes > 0
    ensures slot.None? <==> forall k: nat :: Candidate(k, intervalMinutes) <= WindowLength - durationMinutes ==>
      !SlotAvailable(Candidate(k, intervalMinutes), durationMinutes, bookedBlocks)
    ensures slot.Some? ==> exists k: nat ::
      Candidate(k, intervalMinutes) <= WindowLength - durationMinutes &&
      SlotAvailable(Candidate(k, intervalMinutes), durationMinutes, bookedBlocks) &&
      slot.value == MinutesToTime(Candidate(k, intervalMinutes), false) &&
      forall j: nat :: j < k ==> !SlotAvailable(Candidate(j, intervalMinutes), durationMinutes, bookedBlocks)
  {
    var minutes := 0;
    ghost var k: nat := 0;
    while minutes <= WindowLength - durationMinutes
      invariant minutes == Candidate(k, intervalMinutes)
      invariant forall j: nat :: j < k ==> !SlotAvailable(Candidate(j, intervalMinutes), durationMinutes, bookedBlocks)
      decreases WindowLength - durationMinutes - minutes + intervalMinutes
    {
      var available := IsTimeSlotAvailable(minutes, durationMinutes, bookedBlocks);
      if available {
        return Some(MinutesToTime(minutes, false));
      }
      minutes := minutes + intervalMinutes;
      k := k + 1;
    }
    forall j: nat | k <= j ensures Candidate(j, intervalMinutes) > WindowLength - durationMinutes {
      CandidateMonotone(k, j, intervalMinutes);
    }
    return None;
  }

  /** `getAvailableSlotsCount`: how many candidates `0, step, ... <= 600 - d` are available. */
  method GetAvailableSlotsCount(durationMinutes: int, bookedBlocks: seq<TimeBlock>, intervalMinutes: int)
    returns (count: nat)
    requires intervalMinutes > 0
    ensures count == CountAvailableFrom(0, durationMinutes, bookedBlocks, intervalMinutes)
  {
    count := 0;
    var minutes := 0;
    ghost var k: nat := 0;
    while minutes <= WindowLength - durationMinutes
      invariant minutes == Candidate(k, intervalMinutes)
      invariant count + CountAvailableFrom(k, durationMinutes, bookedBlocks, intervalMinutes)
        == CountAvailableFrom(0, durationMinutes, bookedBlocks, intervalMinutes)
      decreases WindowLength - durationMinutes - minutes + intervalMinutes
    {
      var available := IsTimeSlotAvailable(minutes, durationMinutes, bookedBlocks);
      CandidateNext(k, intervalMinutes);
      if available {
        count := count + 1;
      }
      minutes := minutes + intervalMinutes;
      k := k + 1;
    }
  }

  /** `findNextAvailableSlot` gives `null` exactly when `getAvailableSlotsCount` gives 0. */
  lemma NoNextSlotIffCountZero(d: int, blocks: seq<TimeBlock>, step: int)
    requires step > 0
    ensures CountAvailableFrom(0, d, blocks, step) == 0 <==>
      forall k: nat :: Candidate(k, step) <= WindowLength - d ==> !SlotAvailable(Candidate(k, step), d, blocks)
  {
    CountZeroIff(0, d, blocks, step);
  }

  // ---------------------------------------------------------------- worked example

  /** "30 mins" is thirty minutes. */
  lemma MinutesDurationExample(n: string, unit: string)
    requires n == "30" && unit == " mins"
    ensures WholeMinuteDuration(n + unit) && ParseDuration(n + unit) == Finite(30)
  {
    MinsUnitFound(n, unit);
    ParseIntOfNumeral(n, unit);
    TwoDigitsValue('3', '0');
  }

  /** A two-character number followed by " mins" holds "mins" from its fourth character on. */
  lemma MinsUnitFound(n: string, unit: string)
    requires |n| == 2 && unit == " mins"
    ensures Contains(n + unit, "mins")
  {
    assert unit[1..5] == "mins";
    assert (n + unit)[3..7] == unit[1..5];
    ContainsAt(n + unit, "mins", 3);
  }

  /** "1 hr" is sixty minutes. */
  lemma HourDurationExample(n: string, unit: string)
    requires n == "1" && unit == " hr"
    ensures WholeMinuteDuration(n + unit) && ParseDuration(n + unit) == Finite(60)
  {
    HourNoMinutes(n + unit);
    HourNumber(n, unit);
    ParseDurationOfDecimal(n + unit, Decimal(1, 0));
  }

  lemma HourNoMinutes(s: string)
    requires s == "1 hr"
    ensures !Contains(s, "mins")
  {
    NoMinutesUnit(s);
  }

  lemma HourNumber(n: string, unit: string)
    requires n == "1" && unit == " hr"
    ensures ParseFloat(n + unit) == Some(Decimal(1, 0))
  {
    OneDigitValue('1');
    ParseFloatOfWhole(n, unit);
  }

  /** "1.5 hr" is ninety minutes. */
  lemma HourAndAHalfDurationExample(w: string, f: string, unit: string)
    requires w == "1" && f == "5" && unit == " hr"
    ensures WholeMinuteDuration(w + (['.'] + (f + unit)))
    ensures ParseDuration(w + (['.'] + (f + unit))) == Finite(90)
  {
    HourAndAHalfNoMinutes(w, f, unit);
    HourAndAHalfNumber(w, f, unit);
    NinetyMinutesOfFifteenTenths(w + (['.'] + (f + unit)));
  }

  lemma NinetyMinutesOfFifteenTenths(s: string)
    requires !Contains(s, "mins") && ParseFloat(s) == Some(Decimal(15, 1))
    ensures WholeMinuteDuration(s) && ParseDuration(s) == Finite(90)
  {
    FifteenTenthsOfAnHour();
    ParseDurationOfDecimal(s, Decimal(15, 1));
  }

  lemma FifteenTenthsOfAnHour()
    ensures DividesByPow10(15 * 60, 1) && ShiftDown(15 * 60, 1) == 90
  {
    assert DividesByPow10(900, 1);
    assert ShiftDown(900, 1) == 90;
  }

  lemma HourAndAHalfNoMinutes(w: string, f: string, unit: string)
    requires w == "1" && f == "5" && unit == " hr"
    ensures !Contains(w + (['.'] + (f + unit)), "mins")
  {
    assert 'm' !in f + unit;
    NoMinutesUnit(w + (['.'] + (f + unit)));
  }

  lemma HourAndAHalfNumber(w: string, f: string, unit: string)
    requires w == "1" && f == "5" && unit == " hr"
    ensures ParseFloat(w + (['.'] + (f + unit))) == Some(Decimal(15, 1))
  {
    FifteenTenths(w, f);
    ParseFloatOfFraction(w, f, unit);
  }

  lemma FifteenTenths(w: string, f: string)
    requires w == "1" && f == "5"
    ensures AllDigits(w + f) && DigitsValue(w + f) == 15 && |f| == 1
  {
    assert w + f == ['1', '5'];
    TwoDigitsValue('1', '5');
  }

  /** A text without the letter 'm' is never a "mins" text. */
  lemma NoMinutesUnit(s: string)
    requires 'm' !in s
    ensures !Contains(s, "mins")
  {
    NotContainsWithoutFirstChar(s, "mins");
  }

  /** A one-hour booking written "02:00 م" starts 300 minutes after 9:00. */
  lemma AfternoonTimeExample()
    ensures MinutesToTime(300, false) == "02:00 م"
    ensures ParseTimeToMinutes("02:00 م") == 300
  {
    MinutesToTime12WithinDay(300);
    assert (540 + 300) / 60 == 14 && (540 + 300) % 60 == 0;
    assert DialHour(14) == 2;
    ClockTextDigits(2, 0);
    assert DigitChar(0) == '0' && DigitChar(2) == '2';
    assert ClockText(2, 0) == "02:00";
    assert MinutesToTime(300, false) == ClockText(2, 0) + " " + PmMarker;
    assert MinutesToTime(300, false) == "02:00 م";
    RoundTrip(300, false);
  }

  /** Around a block [300, 360), half-hour requests at 13:30 and 15:00 fit and those at 14:00 and 14:30 do not. */
  lemma AfternoonBlockExample(blocks: seq<TimeBlock>)
    requires blocks == [TimeBlock(300, Finite(360), "02:00 م (1 hr)")]
    ensures SlotAvailable(270, 30, blocks) && SlotAvailable(360, 30, blocks)
    ensures !SlotAvailable(300, 30, blocks) && !SlotAvailable(330, 30, blocks)
    ensures !SlotAvailable(570, 60, [])
  {
    assert !Hits(270, 300, blocks[0]) && !Hits(360, 390, blocks[0]);
    assert Hits(300, 330, blocks[0]) && Hits(330, 360, blocks[0]);
  }
}
