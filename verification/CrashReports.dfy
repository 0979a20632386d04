/**
 A crash's lines: when, which subsystem and what, then what names the place in quotes, then the log's
 context.  However long its parts, a line keeps to its buffer.
 */
module CrashReports {
  import opened Common
  import opened CrashLines
  import Calendar = CrashCalendar

  /** Seconds since the epoch, as a signed 64-bit clock counts them. */
  type Seconds = x: int | 0 <= x < 0x8000_0000_0000_0000

  const SECONDS_PER_DAY := 86400

  // ---------------------------------------------------------------- numbers that fit

  lemma {:induction false} Pow2Sum(a: nat, b: nat)
    ensures Pow2(a + b) == Pow2(a) * Pow2(b)
  {
    if a > 0 {
      Pow2Sum(a - 1, b);
      assert Pow2(a) * Pow2(b) == 2 * (Pow2(a - 1) * Pow2(b));
    }
  }

  lemma Pow2Is()
    ensures Pow2(64) == 0x1_0000_0000_0000_0000
  {
    assert Pow2(4) == 16 by { assert Pow2(2) == 4; Pow2Sum(2, 2); }
    Pow2Sum(4, 4);
    Pow2Sum(8, 8);
    Pow2Sum(16, 16);
    Pow2Sum(32, 32);
  }

  lemma DateFits(time: Seconds)
    ensures var date := Calendar.CivilDate(time / SECONDS_PER_DAY);
            date.year < 0x1_0000_0000_0000_0000 && date.month <= 12 && date.day <= 31
  {
    var days := time / SECONDS_PER_DAY;
    Calendar.CivilIsValid(days);
    YearsAtLeast(Calendar.CivilDate(days).year);
  }

  lemma {:induction false} YearsAtLeast(year: nat)
    requires year >= Calendar.EPOCH_YEAR
    ensures Calendar.DaysBeforeYear(year) >= 365 * (year - Calendar.EPOCH_YEAR)
  {
    if year > Calendar.EPOCH_YEAR { YearsAtLeast(year - 1); }
  }

  // ---------------------------------------------------------------- the time

  /** `YYYY-MM-DDTHH:MM:SSZ`. */
  function Stamp(time: Seconds): string {
    var date, second := Calendar.CivilDate(time / SECONDS_PER_DAY), time % SECONDS_PER_DAY;
    Digits(date.year, 10, 4) + "-" + Digits(date.month, 10, 2) + "-" + Digits(date.day, 10, 2) + "T"
    + Digits(second / 3600, 10, 2) + ":" + Digits(second % 3600 / 60, 10, 2) + ":" + Digits(second % 60, 10, 2) + "Z"
  }

  function Pow10(n: nat): nat { if n == 0 then 1 else 10 * Pow10(n - 1) }

  lemma {:induction false} DigitsExactly(value: nat, width: nat)
    requires 1 <= width && value < Pow10(width)
    ensures |Digits(value, 10, width)| == width
  {
    if !(value < 10 && width <= 1) { DigitsExactly(Upper(value, 10), width - 1); }
  }

  /**
   `s` tells `time`: a valid date's year, month and day, then the hour, minute and second, each in
   decimal digits between the marks, from which counting days and seconds gives `time` back. Each has
   two digits but the year, which has four, or more only past the year 9999.
   */
  predicate TellsTime(s: string, time: Seconds) {
    |s| >= 20 &&
    var y := |s| - 16;
    var year, month, day := Denoted(s[..y], 10), Denoted(s[y + 1..y + 3], 10), Denoted(s[y + 4..y + 6], 10);
    var hour := Denoted(s[y + 7..y + 9], 10);
    var minute, second := Denoted(s[y + 10..y + 12], 10), Denoted(s[y + 13..y + 15], 10);
    var date := Calendar.Date(year, month, day);
    && s[y] == '-' && s[y + 3] == '-' && s[y + 6] == 'T' && s[y + 9] == ':' && s[y + 12] == ':' && s[y + 15] == 'Z'
    && Numeral(s[..y], 10, year) && Numeral(s[y + 1..y + 3], 10, month) && Numeral(s[y + 4..y + 6], 10, day)
    && Numeral(s[y + 7..y + 9], 10, hour)
    && Numeral(s[y + 10..y + 12], 10, minute) && Numeral(s[y + 13..y + 15], 10, second)
    && year >= 1970 && (y == 4 <==> year <= 9999) && (y > 4 ==> s[0] != '0')
    && Calendar.Valid(date) && hour < 24 && minute < 60 && second < 60
    && Calendar.DayNumber(date) * 86400 + hour * 3600 + minute * 60 + second == time
  }

  /** What is stamped, read back, is the time. */
  lemma StampIsTheTime(time: Seconds)
    ensures TellsTime(Stamp(time), time)
  {
    hide Digits, Calendar.CivilDate, Calendar.DayNumber, Denoted, Numeral, Calendar.MonthLength;
    var date, second := Calendar.CivilDate(time / SECONDS_PER_DAY), time % SECONDS_PER_DAY;
    Calendar.CivilIsValid(time / SECONDS_PER_DAY);
    DayParts(time);
    DateDigits(date);
    TwoDigits(second / 3600);
    TwoDigits(second % 3600 / 60);
    TwoDigits(second % 60);
    Joined(Digits(date.year, 10, 4), Digits(date.month, 10, 2), Digits(date.day, 10, 2), Digits(second / 3600, 10, 2),
           Digits(second % 3600 / 60, 10, 2), Digits(second % 60, 10, 2));
  }

  lemma Joined(year: string, month: string, day: string, hour: string, minute: string, second: string)
    requires |month| == 2 == |day| && |hour| == 2 && |minute| == 2 == |second|
    ensures var s := year + "-" + month + "-" + day + "T" + hour + ":" + minute + ":" + second + "Z";
      var y := |year|;
      && |s| == y + 16 && s[..y] == year
      && s[y] == '-' && s[y + 1..y + 3] == month && s[y + 3] == '-' && s[y + 4..y + 6] == day && s[y + 6] == 'T'
      && s[y + 7..y + 9] == hour && s[y + 9] == ':' && s[y + 10..y + 12] == minute && s[y + 12] == ':'
      && s[y + 13..y + 15] == second && s[y + 15] == 'Z' && (y > 0 ==> s[0] == year[0])
  {}

  lemma DayParts(time: Seconds)
    ensures var second := time % SECONDS_PER_DAY;
      var hour, minute, rest := second / 3600, second % 3600 / 60, second % 60;
      && time / SECONDS_PER_DAY * SECONDS_PER_DAY + hour * 3600 + minute * 60 + rest == time
      && hour < 24 && minute < 60 && rest < 60
  {
    var second := time % SECONDS_PER_DAY;
    assert second % 60 == second % 3600 % 60;
  }

  lemma TwoDigits(value: nat)
    requires value < 100
    ensures Numeral(Digits(value, 10, 2), 10, value) && |Digits(value, 10, 2)| == 2
    ensures Denoted(Digits(value, 10, 2), 10) == value
  {
    hide Digits, Denoted;
    DigitsAreNumeral(value, 10, 2);
    assert Pow10(2) == 10 * Pow10(1);
    DigitsExactly(value, 2);
  }

  lemma DateDigits(date: Calendar.Date)
    requires Calendar.Valid(date) && date.year > 0
    ensures var y, m, d := Digits(date.year, 10, 4), Digits(date.month, 10, 2), Digits(date.day, 10, 2);
      && Numeral(y, 10, date.year) && Numeral(m, 10, date.month) && Numeral(d, 10, date.day)
      && Denoted(y, 10) == date.year && Denoted(m, 10) == date.month && Denoted(d, 10) == date.day
      && |m| == 2 == |d| && |y| >= 4 && (|y| == 4 <==> date.year <= 9999) && (|y| > 4 ==> y[0] != '0')
  {
    hide Digits, Denoted;
    TwoDigits(date.month);
    TwoDigits(date.day);
    DigitsAreNumeral(date.year, 10, 4);
    DigitsWide(date.year, 10, 4);
    assert Pow10(4) == 10 * Pow10(3) == 100 * Pow10(2) == 1000 * Pow10(1);
    var y := Digits(date.year, 10, 4);
    if date.year <= 9999 {
      DigitsExactly(date.year, 4);
    } else if |y| == 4 {
      DenotedBelow(y);
    }
  }

  lemma {:induction false} DenotedBelow(text: string)
    requires forall i :: 0 <= i < |text| ==> IsDigit(text[i], 10)
    ensures Denoted(text, 10) < Pow10(|text|)
    decreases |text|
  {
    if text != [] {
      DenotedBelow(text[..|text| - 1]);
      assert IsDigit(text[|text| - 1], 10);
    }
  }

  // ---------------------------------------------------------------- lines

  function Lead(subsystem: string, time: Seconds): string { Stamp(time) + " CRITICAL subsystem=" + subsystem + " " }

  /** A line's text before its newline: fixed parts, then what is quoted under a key, a tail and the context. */
  function Content(fixed: string, key: string, quoted: Option<string>, tail: string, context: string, capacity: nat)
    : string
    requires capacity > 0
  {
    if quoted.None? then PutAll([], fixed + context, capacity)
    else
      PutAllShort([], fixed + key, capacity);
      PutAll(Quoted(PutAll([], fixed + key, capacity), quoted.value, |tail| + |context|, capacity),
             tail + context, capacity)
  }

  lemma PutAllShort(s: string, text: string, capacity: nat)
    requires |s| < capacity
    ensures |PutAll(s, text, capacity)| < capacity
  {}

  /** However long its parts, a line and its newline keep to the buffer. */
  lemma ContentFits(fixed: string, key: string, quoted: Option<string>, tail: string, context: string, capacity: nat)
    requires capacity > 0
    ensures |Content(fixed, key, quoted, tail, context, capacity)| + 1 <= capacity
  {}

  /**
   When a line's fixed parts, both quotes, its tail, its context and a newline fit, it is just those,
   with as much of what is quoted as fits besides, escaped whole and closed: a reader takes exactly
   that back from the quotes, and then the tail and the whole context.
   */
  lemma LineIsWhole(fixed: string, key: string, quoted: string, tail: string, context: string, capacity: nat)
    requires |fixed| + |key| + 3 + |tail| + |context| <= capacity
    ensures var start, room := fixed + key + ['"'], capacity - |fixed + key| - 3 - |tail| - |context|;
      var k := KeptFrom(quoted, 0, room);
      var line := Content(fixed, key, Some(quoted), tail, context, capacity);
      && line == start + Escape(quoted[..k]) + ['"'] + (tail + context)
      && Unquote(line[|start|..]) == Some((quoted[..k], tail + context))
      && |Escape(quoted[..k])| <= room
      && (k < |quoted| ==> |Escape(quoted[..k + 1])| > room)
  {
    hide KeptFrom, Escape, Quoted, Unquote;
    var s, after := fixed + key, |tail| + |context|;
    var room: nat := capacity - |s| - 3 - after;
    var k := KeptFrom(quoted, 0, room);
    assert PutAll([], s, capacity) == s by { PutWhole([], s, capacity); }
    QuotedFits(s, quoted, after, capacity);
    var q := s + ['"'] + Escape(quoted[..k]) + ['"'];
    assert PutAll(q, tail + context, capacity) == q + (tail + context) by { PutWhole(q, tail + context, capacity); }
    QuotedReadsBack(quoted[..k], tail + context);
    var line := q + (tail + context);
    assert line[|s| + 1..] == Escape(quoted[..k]) + ['"'] + (tail + context);
    KeptFits(quoted, 0, room);
    EscapeNothing();
    assert quoted[..0] == [];
    if k < |quoted| { EscapeUpTo(quoted, k); }
  }

  lemma PutWhole(s: string, text: string, capacity: nat)
    requires |s| + |text| < capacity
    ensures PutAll(s, text, capacity) == s + text
  {
    assert text[..|text|] == text;
  }

  /** The signals with a name, by their numbers on Linux. */
  function SignalName(signal: nat): string {
    if signal == 11 then "SIGSEGV"
    else if signal == 4 then "SIGILL"
    else if signal == 8 then "SIGFPE"
    else if signal == 6 then "SIGABRT"
    else if signal == 7 then "SIGBUS"
    else ""
  }

  function SignalFixed(subsystem: string, time: Seconds, signal: nat): string {
    Lead(subsystem, time) + "event=crash signal="
    + if SignalName(signal) != "" then SignalName(signal) else Digits(signal, 10, 1)
  }

  function FrameFixed(subsystem: string, time: Seconds, index: nat, pc: nat): string {
    Lead(subsystem, time) + "event=crash_frame index=" + Digits(index, 10, 1) + " pc=0x" + Digits(pc, 16, 1)
  }

  function ExceptionFixed(subsystem: string, time: Seconds, code: nat): string {
    Lead(subsystem, time) + "event=crash exception=0x" + Digits(code, 16, 8)
  }

  function OffsetTail(offset: nat): string { " offset=0x" + Digits(offset, 16, 1) }

  /** How much room the tail is given, before it is written. */
  lemma OffsetTailIs(offset: nat)
    ensures |OffsetTail(offset)| == 10 + HexLength(offset)
  {
    HexLengthIs(offset);
  }

  /** When they do not fit, nothing is quoted and the line is the rest, with empty quotes, cut. */
  lemma TightLineIs(fixed: string, key: string, quoted: string, tail: string, context: string, capacity: nat)
    requires 0 < capacity < |fixed| + |key| + 3 + |tail| + |context|
    ensures var line := Content(fixed, key, Some(quoted), tail, context, capacity);
      && line <= fixed + key + ['"', '"'] + (tail + context)
      && |line| == Min(capacity - 1, |fixed + key + ['"', '"'] + (tail + context)|)
  {
    var s, after := PutAll([], fixed + key, capacity), |tail| + |context|;
    PutAllShort([], fixed + key, capacity);
    QuotedTight(s, quoted, after, capacity);
    hide Quoted;
    PutAllTwice([], fixed + key, ['"', '"'], capacity);
    PutAllTwice([], fixed + key + ['"', '"'], tail + context, capacity);
    var whole := fixed + key + ['"', '"'] + (tail + context);
    assert Content(fixed, key, Some(quoted), tail, context, capacity) == PutAll([], whole, capacity);
    hide PutAll;
    CutIs(whole, capacity);
  }

  lemma CutIs(text: string, capacity: nat)
    requires capacity > 0
    ensures PutAll([], text, capacity) <= text && |PutAll([], text, capacity)| == Min(capacity - 1, |text|)
  {}

  /** With nothing quoted, a line that fits is its fixed parts and the whole context; else those, cut. */
  lemma PlainLineIs(fixed: string, key: string, tail: string, context: string, capacity: nat)
    requires capacity > 0
    ensures var line := Content(fixed, key, None, tail, context, capacity);
            if |fixed| + |context| < capacity then line == fixed + context
            else |line| == capacity - 1 && line <= fixed + context
  {
    assert (fixed + context)[..|fixed + context|] == fixed + context;
  }

  predicate TellsSignal(text: string, signal: nat) {
    if signal == 11 then text == "SIGSEGV"
    else if signal == 4 then text == "SIGILL"
    else if signal == 8 then text == "SIGFPE"
    else if signal == 6 then text == "SIGABRT"
    else if signal == 7 then text == "SIGBUS"
    else Numeral(text, 10, signal)
  }

  lemma SignalTold(signal: nat)
    ensures TellsSignal(if SignalName(signal) != "" then SignalName(signal) else Digits(signal, 10, 1), signal)
  {
    DigitsAreNumeral(signal, 10, 1);
  }

  /** A crash's first line tells when, which subsystem and which signal: by its name, or its number. */
  lemma SignalFixedTells(subsystem: string, time: Seconds, signal: nat)
    ensures exists stamp, which :: TellsTime(stamp, time) && TellsSignal(which, signal)
              && SignalFixed(subsystem, time, signal)
                 == stamp + " CRITICAL subsystem=" + subsystem + " event=crash signal=" + which
  {
    hide Digits, Stamp, Numeral, TellsTime, TellsSignal, SignalName;
    StampIsTheTime(time);
    SignalTold(signal);
    var which := if SignalName(signal) != "" then SignalName(signal) else Digits(signal, 10, 1);
    assert SignalFixed(subsystem, time, signal)
           == Stamp(time) + " CRITICAL subsystem=" + subsystem + " event=crash signal=" + which;
  }

  /** A frame's line tells when, which subsystem, the frame's index and its program counter. */
  lemma FrameFixedTells(subsystem: string, time: Seconds, index: nat, pc: nat)
    ensures exists stamp, i, address :: TellsTime(stamp, time) && Numeral(i, 10, index) && Numeral(address, 16, pc)
              && FrameFixed(subsystem, time, index, pc)
                 == stamp + " CRITICAL subsystem=" + subsystem + " event=crash_frame index=" + i + " pc=0x" + address
  {
    hide Digits, Stamp, Numeral, TellsTime;
    StampIsTheTime(time);
    var i, address := Digits(index, 10, 1), Digits(pc, 16, 1);
    DigitsAreNumeral(index, 10, 1);
    DigitsAreNumeral(pc, 16, 1);
    assert FrameFixed(subsystem, time, index, pc) == Stamp(time) + " CRITICAL subsystem=" + subsystem
                                                     + " event=crash_frame index=" + i + " pc=0x" + address;
  }

  /** An exception's line tells when, which subsystem and its code, in eight digits. */
  lemma ExceptionFixedTells(subsystem: string, time: Seconds, code: u32)
    ensures exists stamp, digits :: TellsTime(stamp, time) && Numeral(digits, 16, code) && |digits| == 8
              && ExceptionFixed(subsystem, time, code)
                 == stamp + " CRITICAL subsystem=" + subsystem + " event=crash exception=0x" + digits
  {
    hide Digits, Stamp, Numeral, TellsTime;
    StampIsTheTime(time);
    var digits := Digits(code, 16, 8);
    DigitsAreNumeral(code, 16, 8);
    EightDigits(code);
    assert ExceptionFixed(subsystem, time, code)
           == Stamp(time) + " CRITICAL subsystem=" + subsystem + " event=crash exception=0x" + digits;
  }

  /** A module's offset is told after it, in hexadecimal. */
  lemma OffsetTailTells(offset: nat)
    ensures exists digits :: Numeral(digits, 16, offset) && OffsetTail(offset) == " offset=0x" + digits
  {
    hide Digits, Numeral;
    DigitsAreNumeral(offset, 16, 1);
  }

  lemma EightDigits(code: u32)
    ensures |Digits(code, 16, 8)| == 8
  {
    assert Pow2(4) == 16 by { assert Pow2(2) == 4; Pow2Sum(2, 2); }
    Pow2Sum(4, 4);
    Pow2Sum(8, 8);
    Pow2Sum(16, 16);
    HexWidth(code, 8);
  }

  lemma {:induction false} HexWidth(value: nat, width: nat)
    requires 1 <= width && value < Pow2(4 * width)
    ensures |Digits(value, 16, width)| == width
    decreases width
  {
    if !(value < 16 && width <= 1) {
      Pow2Sum(4, 4 * (width - 1));
      assert Pow2(4) == 16 by { assert Pow2(2) == 4; Pow2Sum(2, 2); }
      if width > 1 { HexWidth(Upper(value, 16), width - 1); }
    }
  }

  // ---------------------------------------------------------------- writing them

  /** Two texts put one after the other are one text put. */
  method Append(writer: LineWriter, ghost before: string, ghost done: string, text: string)
    requires writer.Valid() && |before| < writer.line.Length
    requires writer.Text() == PutAll(before, done, writer.line.Length)
    modifies writer`size, writer.line
    ensures writer.Valid() && writer.Text() == PutAll(before, done + text, writer.line.Length)
  {
    PutAllTwice(before, done, text, writer.line.Length);
    writer.PutText(text);
  }

  method AppendDigits(writer: LineWriter, ghost before: string, ghost done: string, value: nat, base: nat, width: nat)
    requires writer.Valid() && |before| < writer.line.Length
    requires 2 <= base <= 16 && width <= 64 && value < 0x1_0000_0000_0000_0000
    requires writer.Text() == PutAll(before, done, writer.line.Length)
    modifies writer`size, writer.line
    ensures writer.Valid() && writer.Text() == PutAll(before, done + Digits(value, base, width), writer.line.Length)
  {
    Pow2Is();
    PutAllTwice(before, done, Digits(value, base, width), writer.line.Length);
    writer.PutDigits(value, base, width);
  }

  method PutTimestamp(writer: LineWriter, time: Seconds)
    requires writer.Valid()
    modifies writer`size, writer.line
    ensures writer.Valid() && writer.Text() == PutAll(old(writer.Text()), Stamp(time), writer.line.Length)
  {
    hide PutAll, Digits, Calendar.CivilDate;
    ghost var s, done := writer.Text(), "";
    PutNothing(s, writer.line.Length);
    DateFits(time);
    var date, second := Calendar.CivilDate(time / SECONDS_PER_DAY), time % SECONDS_PER_DAY;
    AppendDigits(writer, s, done, date.year, 10, 4);
    done := done + Digits(date.year, 10, 4);
    Append(writer, s, done, "-");
    done := done + "-";
    AppendDigits(writer, s, done, date.month, 10, 2);
    done := done + Digits(date.month, 10, 2);
    Append(writer, s, done, "-");
    done := done + "-";
    AppendDigits(writer, s, done, date.day, 10, 2);
    done := done + Digits(date.day, 10, 2);
    Append(writer, s, done, "T");
    done := done + "T";
    AppendDigits(writer, s, done, second / 3600, 10, 2);
    done := done + Digits(second / 3600, 10, 2);
    Append(writer, s, done, ":");
    done := done + ":";
    AppendDigits(writer, s, done, second % 3600 / 60, 10, 2);
    done := done + Digits(second % 3600 / 60, 10, 2);
    Append(writer, s, done, ":");
    done := done + ":";
    AppendDigits(writer, s, done, second % 60, 10, 2);
    done := done + Digits(second % 60, 10, 2);
    Append(writer, s, done, "Z");
    done := done + "Z";
    assert done == Stamp(time);
  }

  method PutLead(writer: LineWriter, subsystem: string, time: Seconds)
    requires writer.Valid() && writer.Text() == []
    modifies writer`size, writer.line
    ensures writer.Valid() && writer.Text() == PutAll([], Lead(subsystem, time), writer.line.Length)
  {
    hide PutAll, Stamp;
    PutTimestamp(writer, time);
    Append(writer, [], Stamp(time), " CRITICAL subsystem=");
    Append(writer, [], Stamp(time) + " CRITICAL subsystem=", subsystem);
    Append(writer, [], Stamp(time) + " CRITICAL subsystem=" + subsystem, " ");
  }

  /** What ends every line: something quoted and its tail, if any, then the context and a newline. */
  method FinishLine(writer: LineWriter, ghost fixed: string, key: string, quoted: Option<string>, tail: string,
                    context: string)
    returns (text: string)
    requires writer.Valid() && writer.Text() == PutAll([], fixed, writer.line.Length)
    modifies writer`size, writer.line
    ensures writer.size <= writer.line.Length && text == writer.Text()
    ensures text == Content(fixed, key, quoted, tail, context, writer.line.Length) + ['\n']
  {
    hide PutAll, Quoted;
    if quoted.Some? {
      Append(writer, [], fixed, key);
      writer.PutQuoted(quoted.value, |tail| + |context|);
      ghost var q := writer.Text();
      PutNothing(q, writer.line.Length);
      assert [] + tail == tail;
      Append(writer, q, [], tail);
      Append(writer, q, tail, context);
    } else {
      Append(writer, [], fixed, context);
    }
    text := writer.Finish();
  }

  method FormatSignalLine(line: array<char>, subsystem: string, time: Seconds, signal: nat, core: string,
                          context: string)
    returns (text: string)
    requires line.Length == LINE_CAPACITY && signal < 0x8000_0000
    modifies line
    ensures text == Content(SignalFixed(subsystem, time, signal), " core=", if core == "" then None else Some(core),
                            "", context, LINE_CAPACITY) + ['\n']
    ensures |text| <= 512 && line[..|text|] == text
  {
    hide PutAll, Content, Lead, Digits;
    var writer := new LineWriter(line);
    PutLead(writer, subsystem, time);
    ghost var lead := Lead(subsystem, time);
    Append(writer, [], lead, "event=crash signal=");
    if SignalName(signal) != "" {
      Append(writer, [], lead + "event=crash signal=", SignalName(signal));
    } else {
      AppendDigits(writer, [], lead + "event=crash signal=", signal, 10, 1);
    }
    ghost var fixed := SignalFixed(subsystem, time, signal);
    text := FinishLine(writer, fixed, " core=", if core == "" then None else Some(core), "", context);
  }

  method PutFramePrefix(writer: LineWriter, subsystem: string, time: Seconds, index: nat, pc: nat)
    requires writer.Valid() && writer.Text() == []
    requires index < 0x8000_0000 && pc < 0x1_0000_0000_0000_0000
    modifies writer`size, writer.line
    ensures writer.Valid() && writer.Text() == PutAll([], FrameFixed(subsystem, time, index, pc), writer.line.Length)
  {
    hide PutAll, Lead, Digits;
    PutLead(writer, subsystem, time);
    ghost var done := Lead(subsystem, time);
    Append(writer, [], done, "event=crash_frame index=");
    done := done + "event=crash_frame index=";
    AppendDigits(writer, [], done, index, 10, 1);
    done := done + Digits(index, 10, 1);
    Append(writer, [], done, " pc=0x");
    done := done + " pc=0x";
    AppendDigits(writer, [], done, pc, 16, 1);
  }

  method FormatFrameLine(line: array<char>, subsystem: string, time: Seconds, index: nat, pc: nat,
                         symbol: Option<string>, context: string)
    returns (text: string)
    requires line.Length == LINE_CAPACITY && index < 0x8000_0000 && pc < 0x1_0000_0000_0000_0000
    modifies line
    ensures text == Content(FrameFixed(subsystem, time, index, pc), " symbol=", symbol, "", context, LINE_CAPACITY)
                    + ['\n']
    ensures |text| <= 512 && line[..|text|] == text
  {
    hide PutAll, Content, FrameFixed;
    var writer := new LineWriter(line);
    PutFramePrefix(writer, subsystem, time, index, pc);
    text := FinishLine(writer, FrameFixed(subsystem, time, index, pc), " symbol=", symbol, "", context);
  }

  method FormatModuleFrameLine(line: array<char>, subsystem: string, time: Seconds, index: nat, pc: nat,
                               module_: Option<string>, offset: nat, context: string)
    returns (text: string)
    requires line.Length == LINE_CAPACITY && index < 0x8000_0000 && pc < 0x1_0000_0000_0000_0000
    requires offset < 0x1_0000_0000_0000_0000
    modifies line
    ensures text == Content(FrameFixed(subsystem, time, index, pc), " module=", module_, OffsetTail(offset), context,
                            LINE_CAPACITY) + ['\n']
    ensures |text| <= 512 && line[..|text|] == text
  {
    hide PutAll, FrameFixed, Digits, Quoted;
    var writer := new LineWriter(line);
    PutFramePrefix(writer, subsystem, time, index, pc);
    ghost var fixed := FrameFixed(subsystem, time, index, pc);
    if module_.Some? {
      Append(writer, [], fixed, " module=");
      OffsetTailIs(offset);
      writer.PutQuoted(module_.value, 10 + HexLength(offset) + |context|);
      ghost var q := writer.Text();
      PutNothing(q, line.Length);
      assert [] + " offset=0x" == " offset=0x";
      Append(writer, q, [], " offset=0x");
      AppendDigits(writer, q, " offset=0x", offset, 16, 1);
      Append(writer, q, OffsetTail(offset), context);
    } else {
      Append(writer, [], fixed, context);
    }
    text := writer.Finish();
  }

  method FormatExceptionLine(line: array<char>, subsystem: string, time: Seconds, code: u32, context: string)
    returns (text: string)
    requires line.Length == LINE_CAPACITY
    modifies line
    ensures text == Content(ExceptionFixed(subsystem, time, code), "", None, "", context, LINE_CAPACITY) + ['\n']
    ensures |text| <= 512 && line[..|text|] == text
  {
    hide PutAll, Content, Lead, Digits;
    var writer := new LineWriter(line);
    PutLead(writer, subsystem, time);
    ghost var lead := Lead(subsystem, time);
    Append(writer, [], lead, "event=crash exception=0x");
    AppendDigits(writer, [], lead + "event=crash exception=0x", code, 16, 8);
    text := FinishLine(writer, ExceptionFixed(subsystem, time, code), "", None, "", context);
  }
}
