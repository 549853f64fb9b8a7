/** The runtime monitor's bounded log (`RuntimeMonitor`,
    Sources/RuntimeMonitorPanel.swift:4-32): entries are appended with the
    time they were logged, only the newest 500 are kept, and the panel copies
    them out one line per entry as `[HH:mm:ss.SSS] message`. */
module RuntimeMonitor {
  import opened Common
  import opened Text

  /** The most entries the monitor keeps. */
  const MaxEntries: nat := 500

  const MillisPerDay: nat := 86_400_000

  /** A logged message and when it was logged, in milliseconds since local
      midnight of some day (the formatter shows only the time of day). */
  datatype MonitorEntry = MonitorEntry(timestamp: nat, message: string)

  /** `log`: the entry goes last and, past the cap, only the oldest entries
      are dropped. */
  function Logged(entries: seq<MonitorEntry>, e: MonitorEntry): (r: seq<MonitorEntry>)
    ensures 0 < |r| <= MaxEntries && |r| <= |entries| + 1 && r[|r| - 1] == e
    ensures r[..|r| - 1] == entries[|entries| + 1 - |r|..]
    ensures |entries| < MaxEntries ==> r == entries + [e]
    ensures |entries| >= MaxEntries ==> |r| == MaxEntries
  {
    AppendKeepNewest(entries, e, MaxEntries);
    KeepNewest(entries + [e], MaxEntries)
  }

  /** Logging never drops an entry while there is room, and once the log is
      full each new entry pushes out exactly the oldest one. */
  lemma LoggedShiftsWhenFull(entries: seq<MonitorEntry>, e: MonitorEntry)
    requires |entries| == MaxEntries
    ensures Logged(entries, e) == entries[1..] + [e]
  {
    var r := Logged(entries, e);
    assert r == r[..|r| - 1] + [r[|r| - 1]];
  }

  // ------------------------------------------------------------ the stamp

  function DigitValue(c: char): int {
    c as int - '0' as int
  }

  predicate IsDigit(c: char) {
    '0' <= c <= '9'
  }

  function Pad2(n: nat): (r: string)
    requires n < 100
    ensures |r| == 2 && IsDigit(r[0]) && IsDigit(r[1])
    ensures 10 * DigitValue(r[0]) + DigitValue(r[1]) == n
  {
    [DigitChar(n / 10), DigitChar(n % 10)]
  }

  function Pad3(n: nat): (r: string)
    requires n < 1000
    ensures |r| == 3 && IsDigit(r[0]) && IsDigit(r[1]) && IsDigit(r[2])
    ensures 100 * DigitValue(r[0]) + 10 * DigitValue(r[1]) + DigitValue(r[2]) == n
  {
    [DigitChar(n / 100)] + Pad2(n % 100)
  }

  /** The clock fields of a time of day. */
  datatype Clock = Clock(hour: nat, minute: nat, second: nat, milli: nat)

  predicate ValidClock(c: Clock) {
    c.hour < 24 && c.minute < 60 && c.second < 60 && c.milli < 1000
  }

  function ClockMillis(c: Clock): nat {
    ((c.hour * 60 + c.minute) * 60 + c.second) * 1000 + c.milli
  }

  /** The clock reading of a timestamp; together with `ClockMillis` it
      recovers the time of day. */
  function ClockOf(t: nat): (c: Clock)
    ensures ValidClock(c)
    ensures ClockMillis(c) == t % MillisPerDay
  {
    var d := t % MillisPerDay;
    var c := Clock(d / 3_600_000, d / 60_000 % 60, d / 1000 % 60, d % 1000);
    ClockDecompose(d);
    c
  }

  lemma ClockDecompose(d: nat)
    requires d < MillisPerDay
    ensures ((d / 3_600_000 * 60 + d / 60_000 % 60) * 60 + d / 1000 % 60) * 1000 + d % 1000 == d
    ensures d / 3_600_000 < 24
  {
    var s := d / 1000;
    var m := s / 60;
    var h := m / 60;
    assert d == s * 1000 + d % 1000;
    assert s == m * 60 + s % 60;
    assert m == h * 60 + m % 60;
    assert m == d / 60_000 by {
      assert d / 1000 / 60 == d / (1000 * 60);
    }
    assert h == d / 3_600_000 by {
      assert d / 60_000 / 60 == d / (60_000 * 60);
    }
  }

  /** `DateFormatter` with the format `HH:mm:ss.SSS`. */
  function FormatStamp(t: nat): (r: string)
    ensures |r| == 12 && LF !in r
  {
    ClockText(ClockOf(t))
  }

  function ClockText(c: Clock): (r: string)
    requires ValidClock(c)
    ensures |r| == 12 && LF !in r
  {
    Pad2(c.hour) + ":" + Pad2(c.minute) + ":" + Pad2(c.second) + "." + Pad3(c.milli)
  }

  /** The clock fields an `HH:mm:ss.SSS` text shows, if it has that shape. */
  function ParseClock(s: string): Option<Clock> {
    if |s| == 12 && s[2] == ':' && s[5] == ':' && s[8] == '.'
       && IsDigit(s[0]) && IsDigit(s[1]) && IsDigit(s[3]) && IsDigit(s[4]) && IsDigit(s[6]) && IsDigit(s[7])
       && IsDigit(s[9]) && IsDigit(s[10]) && IsDigit(s[11])
    then Some(Clock(10 * DigitValue(s[0]) + DigitValue(s[1]), 10 * DigitValue(s[3]) + DigitValue(s[4]),
                    10 * DigitValue(s[6]) + DigitValue(s[7]),
                    100 * DigitValue(s[9]) + 10 * DigitValue(s[10]) + DigitValue(s[11])))
    else None
  }

  /** Reads an `HH:mm:ss.SSS` stamp back as milliseconds since midnight. */
  function ParseStamp(s: string): Option<nat> {
    match ParseClock(s)
    case Some(c) => if ValidClock(c) then Some(ClockMillis(c)) else None
    case None => None
  }

  lemma ClockTextRoundTrip(c: Clock)
    requires ValidClock(c)
    ensures ParseClock(ClockText(c)) == Some(c)
  {
    var h, m, sec, ms := Pad2(c.hour), Pad2(c.minute), Pad2(c.second), Pad3(c.milli);
    var s := ClockText(c);
    assert s == h + ":" + m + ":" + sec + "." + ms;
    assert s[0] == h[0] && s[1] == h[1] && s[2] == ':';
    assert s[3] == m[0] && s[4] == m[1] && s[5] == ':';
    assert s[6] == sec[0] && s[7] == sec[1] && s[8] == '.';
    assert s[9] == ms[0] && s[10] == ms[1] && s[11] == ms[2];
  }

  /** A stamp reads back as the time of day it was made from. */
  lemma StampRoundTrip(t: nat)
    ensures ParseStamp(FormatStamp(t)) == Some(t % MillisPerDay)
  {
    ClockTextRoundTrip(ClockOf(t));
  }

  // ------------------------------------------------------------ the text

  /** One line of the copied text. */
  function EntryLine(e: MonitorEntry): string {
    "[" + FormatStamp(e.timestamp) + "] " + e.message
  }

  /** What a line says: its time of day and its message. */
  function ParseEntryLine(line: string): Option<(nat, string)> {
    if |line| >= 15 && line[0] == '[' && line[13] == ']' && line[14] == ' ' then
      match ParseStamp(line[1..13])
      case Some(t) => Some((t, line[15..]))
      case None => None
    else None
  }

  /** A line gives back the entry's message and its time of day. */
  lemma EntryLineRoundTrip(e: MonitorEntry)
    ensures ParseEntryLine(EntryLine(e)) == Some((e.timestamp % MillisPerDay, e.message))
  {
    var line := EntryLine(e);
    assert line[1..13] == FormatStamp(e.timestamp);
    assert line[15..] == e.message;
    StampRoundTrip(e.timestamp);
  }

  function EntryLines(entries: seq<MonitorEntry>): (r: seq<string>)
    ensures |r| == |entries|
    ensures forall k :: 0 <= k < |entries| ==> r[k] == EntryLine(entries[k])
  {
    if |entries| == 0 then [] else EntryLines(entries[..|entries| - 1]) + [EntryLine(entries[|entries| - 1])]
  }

  /** `joinedText`: the entry lines joined by a newline, none after the last. */
  function JoinedText(entries: seq<MonitorEntry>): string {
    Join(EntryLines(entries), LF)
  }

  /** Splitting the copied text at newlines gives one line per entry, in
      order, as long as no message holds a newline of its own. */
  lemma JoinedTextLines(entries: seq<MonitorEntry>)
    requires |entries| > 0
    requires forall k :: 0 <= k < |entries| ==> LF !in entries[k].message
    ensures Split(JoinedText(entries), LF) == EntryLines(entries)
  {
    var lines := EntryLines(entries);
    forall k | 0 <= k < |lines| ensures LF !in lines[k] {
      EntryLineHasNoBreak(entries[k]);
    }
    SplitJoin(lines, LF);
  }

  lemma EntryLineHasNoBreak(e: MonitorEntry)
    requires LF !in e.message
    ensures LF !in EntryLine(e)
  {
    var stamp := FormatStamp(e.timestamp);
    assert EntryLine(e) == "[" + stamp + "] " + e.message;
    assert LF !in "[" && LF !in "] " && LF !in stamp;
  }

  /** The log of the monitor panel. */
  class Monitor {
    var entries: seq<MonitorEntry>

    constructor()
      ensures entries == []
    {
      entries := [];
    }

    /** `log(_:)`, stamped with the current time `now`. */
    method Log(message: string, now: nat)
      modifies this
      ensures entries == Logged(old(entries), MonitorEntry(now, message))
    {
      entries := entries + [MonitorEntry(now, message)];
      if |entries| > MaxEntries {
        entries := entries[|entries| - MaxEntries..];
      }
    }

    method Clear()
      modifies this
      ensures entries == []
    {
      entries := [];
    }

    function Text(): string
      reads this
    {
      JoinedText(entries)
    }
  }
}
