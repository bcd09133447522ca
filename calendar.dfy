/**
 * The calendar modal: the day cells of a month, the key each cell looks up,
 * and whether the cell shows as a cleared day. The year, the month, the
 * number of days in it and the weekday of its first day come from the
 * platform's date library and are inputs here.
 */
module Calendar {
  import opened Wrappers
  import opened JsText
  import opened Profile

  /** A calendar day as the modal holds it: the month is counted from 0. */
  datatype Day = Day(year: nat, month: nat, day: nat)

  /** The key of a cell: `${year}-${String(month + 1).padStart(2, '0')}-${String(day).padStart(2, '0')}`. */
  function DayKey(year: nat, month: nat, day: nat): (key: string)
    ensures |key| > |NatToString(year)| && key[..|NatToString(year)|] == NatToString(year)
    ensures month <= 98 && day <= 99 ==>
      && |key| == |NatToString(year)| + 6
      && key[|key| - 6] == '-' && key[|key| - 3] == '-'
      && AllDigits(key[|key| - 5..|key| - 3]) && AllDigits(key[|key| - 2..])
  {
    var y, m, d := NatToString(year), Pad2(month + 1), Pad2(day);
    var key := y + "-" + m + "-" + d;
    assert key[..|y|] == y;
    assert month <= 98 && day <= 99 ==> |m| == 2 && |d| == 2 && AllDigits(m) && AllDigits(d) by {
      if month <= 98 && day <= 99 {
        Pad2Inverse(month + 1);
        Pad2Inverse(day);
      }
    }
    assert |m| == 2 && |d| == 2 ==> key[|key| - 5..|key| - 3] == m && key[|key| - 2..] == d;
    key
  }

  /** The numbered cells: `Array.from({ length: daysInMonth }, (_, i) => i + 1)`. */
  function Days(daysInMonth: nat): (r: seq<int>)
    ensures |r| == daysInMonth
    ensures forall i, j :: 0 <= i < j < |r| ==> r[i] < r[j]
    ensures forall d :: d in r <==> 1 <= d <= daysInMonth
  {
    var r := seq(daysInMonth, i => i + 1);
    assert forall d :: 1 <= d <= daysInMonth ==> d in r by {
      forall d | 1 <= d <= daysInMonth
        ensures d in r
      {
        assert r[d - 1] == d;
      }
    }
    r
  }

  /** The empty cells before the 1st: `Array(startingDayOfWeek).fill(null)`, weekday 0 (Sunday) to 6. */
  function Blanks(startingDayOfWeek: nat): (r: seq<()>)
    ensures |r| == startingDayOfWeek
  {
    seq(startingDayOfWeek, _ => ())
  }

  /** A cell shows as cleared when its key is among the profile's cleared dates. */
  predicate IsCleared(c: Character, key: string)
    ensures IsCleared(c, key) <==> exists i :: 0 <= i < |c.clearedDates| && c.clearedDates[i] == key
  {
    key in c.clearedDates
  }

  /** The shape "YYYY-MM-DD" of the key `startNextStage` stores. */
  predicate IsIsoDayKey(s: string) {
    && |s| == 10 && s[4] == '-' && s[7] == '-'
    && AllDigits(s[..4]) && AllDigits(s[5..7]) && AllDigits(s[8..])
  }

  /** An ISO day key of a year from 1000 on, a month 01-12 and a day 01-31. */
  predicate IsStoredDayKey(s: string) {
    && IsIsoDayKey(s) && s[0] != '0'
    && 1 <= ParseDecimal(s[5..7]) <= 12
    && 1 <= ParseDecimal(s[8..]) <= 31
  }

  /** Reads a key back into its year, month index and day. */
  function ParseDayKey(s: string): Option<Day> {
    match SplitTail(s, '-', '-')
    case None => None
    case Some((y, m, d)) => DayFromParts(y, m, d)
  }

  /** The day the year, month and day parts of a key name, if they are digits and the month is not 0. */
  function DayFromParts(y: string, m: string, d: string): Option<Day> {
    if AllDigits(y) && AllDigits(m) && AllDigits(d) && ParseDecimal(m) >= 1
    then Some(Day(ParseDecimal(y), ParseDecimal(m) - 1, ParseDecimal(d)))
    else None
  }

  /** Reading back the key of a day gives the day. */
  lemma ParseDayKeyInverse(year: nat, month: nat, day: nat)
    requires month <= 98 && day <= 99
    ensures ParseDayKey(DayKey(year, month, day)) == Some(Day(year, month, day))
  {
    Pad2Inverse(month + 1);
    Pad2Inverse(day);
    ParseNatToString(year);
    SplitJoined(NatToString(year), '-', Pad2(month + 1), '-', Pad2(day));
  }

  /** Different days of the calendar never share a key. */
  lemma DayKeyInjective(y1: nat, m1: nat, d1: nat, y2: nat, m2: nat, d2: nat)
    requires m1 <= 11 && m2 <= 11 && 1 <= d1 <= 31 && 1 <= d2 <= 31
    requires DayKey(y1, m1, d1) == DayKey(y2, m2, d2)
    ensures y1 == y2 && m1 == m2 && d1 == d2
  {
    ParseDayKeyInverse(y1, m1, d1);
    ParseDayKeyInverse(y2, m2, d2);
  }

  /** A four-digit year has four-character text. */
  lemma FourDigitYear(year: nat)
    requires 1000 <= year <= 9999
    ensures |NatToString(year)| == 4
  {
    assert |NatToString(year / 10 / 10)| == 2;
  }

  /** Text joined from four, two and two digits with in-range month and day is a stored day key. */
  lemma JoinedIsStored(y: string, m: string, d: string)
    requires |y| == 4 && |m| == 2 && |d| == 2 && AllDigits(y) && AllDigits(m) && AllDigits(d)
    requires y[0] != '0' && 1 <= ParseDecimal(m) <= 12 && 1 <= ParseDecimal(d) <= 31
    ensures IsStoredDayKey(y + "-" + m + "-" + d)
  {
    var k := y + "-" + m + "-" + d;
    assert k[..4] == y && k[5..7] == m && k[8..] == d;
  }

  /** For a four-digit year the cell key has the "YYYY-MM-DD" shape of the stored keys. */
  lemma DayKeyIsIso(year: nat, month: nat, day: nat)
    requires 1000 <= year <= 9999 && month <= 11 && 1 <= day <= 31
    ensures IsStoredDayKey(DayKey(year, month, day))
  {
    FourDigitYear(year);
    Pad2Inverse(month + 1);
    Pad2Inverse(day);
    JoinedIsStored(NatToString(year), Pad2(month + 1), Pad2(day));
  }

  /** Every stored day key is the key of a cell: the calendar can show every recorded day. */
  lemma StoredKeyIsDayKey(s: string)
    requires IsStoredDayKey(s)
    ensures ParseDayKey(s).Some?
    ensures var d := ParseDayKey(s).value;
      d.month <= 11 && 1 <= d.day <= 31 && DayKey(d.year, d.month, d.day) == s
  {
    assert s == s[..4] + "-" + s[5..7] + "-" + s[8..];
    SplitJoined(s[..4], '-', s[5..7], '-', s[8..]);
    NatToStringOfParse(s[..4]);
    Pad2OfParse(s[5..7]);
    Pad2OfParse(s[8..]);
  }

  /**
   * After a stage is cleared on a stored day key, the cell of that day in its
   * month shows as cleared.
   */
  lemma ClearedDayShows(c: Character, today: string)
    requires IsStoredDayKey(today)
    ensures var d := ParseDayKey(today).value;
      IsCleared(RecordStageCleared(c, today), DayKey(d.year, d.month, d.day))
  {
    StoredKeyIsDayKey(today);
  }

  /**
   * With every recorded date a stored day key, a cell shows as cleared
   * exactly when some recorded date names that very day.
   */
  lemma CellClearedIff(c: Character, year: nat, month: nat, day: nat)
    requires month <= 11 && 1 <= day <= 31
    requires forall k :: k in c.clearedDates ==> IsStoredDayKey(k)
    ensures IsCleared(c, DayKey(year, month, day))
        <==> exists k :: k in c.clearedDates && ParseDayKey(k) == Some(Day(year, month, day))
  {
    ParseDayKeyInverse(year, month, day);
    if k :| k in c.clearedDates && ParseDayKey(k) == Some(Day(year, month, day)) {
      StoredKeyIsDayKey(k);
    }
  }

  /** The highlight of today's cell: `dateStr === todayStr`. */
  predicate IsToday(key: string, todayKey: string)
    ensures IsToday(key, todayKey) <==> |key| == |todayKey| && forall i :: 0 <= i < |key| ==> key[i] == todayKey[i]
  {
    key == todayKey
  }

  /** At most one cell of a month is highlighted as today. */
  lemma OneTodayCell(year: nat, month: nat, d1: nat, d2: nat, todayKey: string)
    requires month <= 11 && 1 <= d1 <= 31 && 1 <= d2 <= 31
    requires IsToday(DayKey(year, month, d1), todayKey) && IsToday(DayKey(year, month, d2), todayKey)
    ensures d1 == d2
  {
    DayKeyInjective(year, month, d1, year, month, d2);
  }
}
